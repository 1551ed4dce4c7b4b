# Payment ingestion and retrieval: a verified model

The repository takes in payment instructions, stores each one exactly once, hands
it on through a leased outbox, keeps a vector index of what happened and answers
questions over it. This project models the parts of it where mistakes are
expensive, and proves what holds of them over every input and every run.

**Edge: taking requests in.** `IdempotencyStore` holds the key, envelope and outbox
tables and the three transactions on them (claim a key, release it, save an
envelope). `IdempotencyRuns` lets any number of workers run these in any order
against a clock that only moves forward. Whatever the timing, COMPLETED means that
an envelope is set, fingerprints are permanent and envelopes match outbox rows one
to one. A key keeps one envelope, and its first envelope stays first, exactly when
no commit meets the key already completed; live claims hold their keys alone exactly
when nobody ends its work on a key that another claim is live on. The 90-second rule
(act within 90 s of your own claim, or not at all) guarantees both. The save does not look at the key's
status, so without the rule a late commit replaces the envelope and a late release
frees somebody else's claim: `LateCommitReplacesTheEnvelope` and
`LateReleaseAdmitsASecondClaimant` give the runs. `IdempotencyHistory` derives every
answer from what has happened to the key, without looking at its row.

**Edge: the outbox.** `OutboxTable` models leasing, acknowledging and refusing
batches with attempts, lease times and jittered delays; `OutboxRuns` proves the
protocol over whole runs. The hour-long cap on the delay is never in force.
`OutboxTiming` proves that no event is handed out before its backoff is over, that it
gets its turn afterwards even when a relay dies, and that its final status tells how
it was settled.

**Edge: sealing.** `EnvelopeSeal` builds the text that is hashed and gives a reader
that recovers every field from it, so that two different envelopes never share the
text.

**Edge: bulk files.** `RowPayload` expands dotted headers into nested objects as
values, `RowPayloadBuilder` does it in place on heap objects as the source does. A
header below another header panics; exactly when is `BuildPanicsIff`. `BaseParser`,
`BaseAmounts`, `ParsedRows`, `VendorParser`, `VendorRules`, `VendorAmounts`,
`VendorGaps` and `VendorSheets` read vendor rows and bound how far the payout of an
accepted row can be from its tax rates. `BulkRows` and `BulkKeys` are the producer
of an upload and its keys, `BulkPipeline` its queue and workers under every
interleaving, `BulkAnswers` and `BulkResponse` show that each row that is not blank
is accounted for once and in file order, and `BulkOutcomes` says what each row and
the whole file are answered.

**Edge: webhooks, sessions and sign-in.** `WebhookStore` and `WebhookHistory` follow
the in-process receipt store over any history of deliveries and faults.
`AuthSessions` and `SessionRuns` follow refresh tokens through rotation and
revocation, and `SessionAnswers` says which answer each refresh gets. `LoginLockout`
bounds the rate at which passwords can be tried; `LoginHistory` derives lock and
answers from the history of sign-ins.

**Agents: retrieval.** `StableSort`, `Ranking` and `RankingFairness` model the
balanced trim and prove it is a water filling; `ServiceFairness` says what that means
for the services the chunks come from. `Merging` models the stable merge of two
result lists. `VectorDocuments` puts an entity's chunks together into one
document, `VectorIndexer` and `VectorIndexRuns` keep the index and the state table
that decides what to skip, `VectorChanges` proves that no change of a document, model
or entity is missed, `VectorIds` says which requests share a vector id, and
`IndexConsumer` is the loop that feeds them. `Text` and `TextForms` are the string
operations all of these use.

Conventions. A class holds what the source updates in place; its methods are proved
against functions on values (`Persisted`, `Leased`, `Refreshed`, ...), and runs are
sequences of actions over those functions. An action that is not possible changes
nothing, so a run is any sequence at all. Clock readings never move backwards; they
are microseconds in `IdempotencyStore`, seconds as reals in `OutboxTable` and
nanoseconds elsewhere. Amounts and scores are reals. A character of a sealed field
stands for a byte. Hash functions are arbitrary functions, and a lemma that needs
one to be free of collisions says so.
What the network, the database or another service may do is a parameter of each
call.

Where the code does other than its comments or layout suggest, the model follows
the code:

- A refresh token minted before the session start was put in the claims is said to
  fall back to the stored limit. Its claim reads as 1970, which is not the zero
  time, so the fallback is never taken and the token is refused
  (`SessionRuns.OlderTokensCannotRefresh`).
- A session that is over is answered as such only when its limit falls between the
  reading of the token and the check of its row; before the check is reached the token
  itself has expired (`SessionAnswers.SessionEndIsSeenInPassing`).
- An embedding model configured with blanks around its name is never found unchanged,
  so every document is embedded again (`VectorChanges.RepeatIsSkippedIff`).
- A file parser looks a cell up under several names, and the last name is also the
  default value. A vendor file without a column of that last name is refused row by
  row wherever that number or optional identifier is blank
  (`VendorAmounts.BlankNumberRefusesRow`, `VendorAmounts.BlankIdentifierRefusesRow`),
  and a missing account is noticed only in a file that has a column named "fund
  account id" (`VendorAmounts.AccountIsMissedIff`).
- The TDS check is left out when no TDS rate is given, the GST check under reverse
  charge or an unlisted GST type, and the net check when the amount or the net is
  not positive; `VendorGaps.EachTieIsNeeded` shows accepted rows for each of these
  whose payout is arbitrarily far off.
- The back-fill of an idempotency row from its envelope never happens
  (`IdempotencyRuns.BackfillNeverHappens`).
- Vector ids hash fields joined by bars without escaping them, so two requests the
  consumer accepts can share an id (`VectorIds.BarsConfuseIds`,
  `VectorIds.SharesOnlyWithBars`); `VectorIds.SharesIff` says exactly when one does.
- A document whose content ends in ":" or ": -" loses that content, because the last
  part is then taken for an unfilled heading. `VectorDocuments.ContentIsLostIff` says
  exactly which contents are told apart; a change between two that are not is skipped
  (`VectorIndexRuns.ChangedContentIsSkipped`).
- The state table keeps neither the batch nor the capitals of the entity type, so a
  retry may embed another document than was asked for first
  (`VectorIds.RetryHasSameDocumentIff`).
- A vector id contains the content version, so a new version leaves the old version's
  vector in the index until the entity is deleted (`VectorIds.OldVersionsStay`).
- The write that counts a failed sign-in may be lost without notice; each lost one
  allows one more guess (`LoginLockout.GuessRateIsBounded`).

## Model

| member | source | states |
|---|---|---|
| `IdempotencyStore.EdgeDatabase.PersistIdempotency` | backend/edge/services/idempotency_validation.go:37-211 | claiming a key inserts it, or answers conflict, duplicate or in flight, or takes over a claim that was released or is older than 90 s, and changes no other row |
| `IdempotencyStore.EdgeDatabase.ReleaseIdempotencyClaim` | backend/edge/services/idempotency_validation.go:215-233 | a release turns an unfinished claim with the same fingerprint into RESERVED and touches nothing else |
| `IdempotencyStore.EdgeDatabase.SaveRawIntent` | backend/edge/services/ingest_service.go:34-157 | envelope, completed key and outbox row are written together or not at all, and the key's status is not looked at |
| `IdempotencyRuns.BackfillNeverHappens` | backend/edge/services/idempotency_validation.go:125-138 | where keys and envelopes agree, noting a conflict changes only the counters |
| `IdempotencyRuns.PersistEffect` | backend/edge/services/idempotency_validation.go:49-202 | a request that may proceed finds its own fingerprint stored and no envelope; fingerprints and completed rows survive every request |
| `IdempotencyRuns.EveryRunKeepsInvariant` | backend/edge/services/idempotency_validation.go:140-202 | in every run COMPLETED holds exactly when an envelope is set, the envelope is the key's own, envelopes and outbox rows match one to one, and nobody works under a foreign fingerprint |
| `IdempotencyRuns.StoredForGood` | backend/edge/services/idempotency_validation.go:49-83 | keys, their fingerprints and envelopes are permanent |
| `IdempotencyRuns.OtherFingerprintIsRefused` | backend/edge/services/idempotency_validation.go:140-156 | a request under another fingerprint is refused in every reachable state |
| `IdempotencyRuns.AtMostOneEnvelopeIff` | backend/edge/services/ingest_service.go:88-106 | a key has at most one envelope exactly when no commit of the run met the key already completed |
| `IdempotencyRuns.FirstEnvelopeKeptIff` | backend/edge/services/ingest_service.go:88-106 | a set first envelope stays the same exactly when no commit in between met the key already completed |
| `IdempotencyRuns.LiveClaimBars` | backend/edge/services/idempotency_validation.go:179-210 | while a claim is live no other request on its key may proceed |
| `IdempotencyRuns.ClaimsStepIff` | backend/edge/services/idempotency_validation.go:179-233 | one step takes a key from its live claim exactly when another worker commits or releases on it |
| `IdempotencyRuns.ClaimsHeldIff` | backend/edge/services/idempotency_validation.go:179-233 | over every run, whatever the timing, live claims hold their keys alone at all times exactly when no worker ends its work on a key another claim is live on |
| `IdempotencyRuns.TimelyRunsNeverIntrude` | backend/edge/services/idempotency_validation.go:26-28 | workers that act within 90 s of their claim never do that |
| `IdempotencyRuns.TimelyRunsKeepClaims` | backend/edge/services/idempotency_validation.go:26-28 | when workers act within 90 s of their claim, every live claim still holds its key |
| `IdempotencyRuns.TimelyRunsAreExclusive` | backend/edge/services/idempotency_validation.go:179-202 | in timely runs a key has at most one live claimant and at most one envelope |
| `IdempotencyRuns.TimelyNeverOverwrites` | backend/edge/services/ingest_service.go:88-106 | in timely runs no commit meets a completed key, over any continuation |
| `IdempotencyRuns.LaterRequestsGetTheFirstEnvelope` | backend/edge/services/idempotency_validation.go:158-176 | in timely runs every later request with the same fingerprint is answered with the first envelope |
| `IdempotencyRuns.LateCommitReplacesTheEnvelope` | backend/edge/services/ingest_service.go:88-106 | a concrete run in which a commit after a takeover replaces the first envelope |
| `IdempotencyRuns.LateReleaseAdmitsASecondClaimant` | backend/edge/services/idempotency_validation.go:215-233 | a concrete run in which a late release frees a claim taken over by another worker |
| `IdempotencyHistory.HistoryTellsRow` | backend/edge/services/idempotency_validation.go:49-233 | in every run the row of a key says what its last claim, release or commit was, and when |
| `IdempotencyHistory.AnswerFollowsHistory` | backend/edge/services/idempotency_validation.go:37-211 | in every run a request is answered as the history of its key demands: another fingerprint is refused, a stored envelope named, a free key handed out, and a claimed one handed out again after more than 90 s; without a key it always proceeds |
| `IdempotencyHistory.ConflictsAreCounted` | backend/edge/services/idempotency_validation.go:115-176 | a key's conflict counter is the number of requests that met it under another fingerprint or already stored |
| `IdempotencyHistory.StoredKeyIsNotHandedOut` | backend/edge/services/idempotency_validation.go:179-202 | a key with an envelope is never handed out, in whatever state its row is |
| `OutboxTable.Table.LeaseOutboxBatch` | backend/edge/services/outbox_pull_repo.go:33-207 | a lease call returns the oldest ready unlocked rows up to the clamped limit, in order, under one lease, and leaves every other row as it was |
| `OutboxTable.Table.PickOldest` | backend/edge/services/outbox_pull_repo.go:46-57 | the picked rows are ready, unlocked, sorted by creation, as many as the limit allows, and none left out is older |
| `OutboxTable.PickIsUnique` | backend/edge/services/outbox_pull_repo.go:46-57 | with distinct creation times the picked batch is determined |
| `OutboxTable.Table.AckOutboxBatch` | backend/edge/services/outbox_pull_repo.go:209-226 | an ack settles exactly the named rows held by that lease and counts them |
| `OutboxTable.Table.NackOutboxBatch` | backend/edge/services/outbox_pull_repo.go:228-255 | a nack counts an attempt and schedules or fails exactly the named rows held by that lease |
| `OutboxRuns.EveryRunKeepsInvariant` | backend/edge/services/outbox_pull_repo.go:24-27 | attempts stay within 0..7, pending rows have fewer than 7, and only pending rows carry a lease, which is one that was granted |
| `OutboxRuns.FinalRowsStay` | backend/edge/services/outbox_pull_repo.go:46-67 | a sent or failed row never changes again |
| `OutboxRuns.HeldUntilSettled` | backend/edge/services/outbox_pull_repo.go:46-67 | a leased row stays as leased until its lease acks or nacks it or runs out |
| `OutboxRuns.NoSecondDelivery` | backend/edge/services/outbox_pull_repo.go:46-67 | an event delivered under a lease valid until u is delivered again no later than u only if that lease acked or nacked it first |
| `OutboxRuns.LostLeaseIsDead` | backend/edge/services/outbox_pull_repo.go:58-65 | once a used lease no longer holds a row it never holds it again |
| `OutboxRuns.SupersededLeaseChangesNothing` | backend/edge/services/outbox_pull_repo.go:209-249 | an ack or nack in the name of a superseded lease leaves the row as it is, for ever |
| `OutboxRuns.ScheduledDelayRange` | backend/edge/services/outbox_pull_repo.go:228-249 | every scheduled delay lies in [0.8, 38.4) s, so the 3600 s cap never applies |
| `OutboxRuns.DelaysAreBounded` | backend/edge/services/outbox_pull_repo.go:228-249 | attempts count the effective nacks and all delays of one event add up to less than 75.6 s |
| `OutboxRuns.NackReducesRemaining` | backend/edge/services/outbox_pull_repo.go:228-249 | an effective nack strictly reduces the attempts left over all rows; no other step changes an existing row's attempts |
| `OutboxTiming.NoDeliveryBeforeBackoff` | backend/edge/services/outbox_pull_repo.go:46-57 | after its n-th nack an event is handed out again no sooner than 0.8 * 2^(n-1) s later, over any continuation |
| `OutboxTiming.DelayIsIff` | backend/edge/services/outbox_pull_repo.go:228-249 | the delays a nack can schedule are exactly those from 0.8 * 2^n up to 1.2 * 2^n s |
| `OutboxTiming.ReadyGetsItsTurn` | backend/edge/services/outbox_pull_repo.go:33-57 | a pending event with an expired lease, attempts left and its retry time reached is leased, or the batch is full (500 by default, at most 1000) of events none of which is younger |
| `OutboxTiming.NobodyWaitsForever` | backend/edge/services/outbox_pull_repo.go:46-57 | in every run a pending event nobody holds gets its turn in any lease 38.4 s later, one never nacked at once |
| `OutboxTiming.DeadRelaysLetGo` | backend/edge/services/outbox_pull_repo.go:46-67 | events of a relay that is never heard of again get their turn once its lease is over |
| `OutboxTiming.StepsAreRecorded` | backend/edge/services/outbox_pull_repo.go:58-67 | in every run a delivery records lease, relay and end of lease, an ack the publication, a nack one more attempt, the last two give the lease back, and nothing else changes a row |
| `OutboxTiming.StatusTellsHistory` | backend/edge/services/outbox_pull_repo.go:209-249 | in every run an event is SENT exactly when its holder acked it, and FAILED exactly when its holder nacked it at the seventh attempt or at more than eight hours of age |
| `EnvelopeSeal.BuildEnvelopeHash` | backend/edge/services/cryptographic_seal.go:12-41 | the seal is the hash of the length-prefixed and delimited text of the eight fields |
| `EnvelopeSeal.TimeRoundTrip` | backend/edge/services/cryptographic_seal.go:12-39 | the timestamp text reads back to the same time and contains no bar |
| `EnvelopeSeal.SealRoundTrip` | backend/edge/services/cryptographic_seal.go:12-39 | a reader recovers every field from the sealed text, whatever the fields contain |
| `EnvelopeSeal.SealsDiffer` | backend/edge/services/cryptographic_seal.go:12-41 | envelopes that differ in a sealed field have different texts, and different seals under a collision-free hash |
| `RowPayload.InsertPanicsIff` | backend/edge/handler/bulk_handler.go:1178-1190 | one write panics exactly when a string stands strictly above its path |
| `RowPayload.InsertEffect` | backend/edge/handler/bulk_handler.go:1178-1190 | a write puts its text at its path, removes what was below it and disturbs no other path |
| `RowPayload.BuildPanicsIff` | backend/edge/handler/bulk_handler.go:1163-1194 | building a payload panics exactly when an earlier path, or the row reference, lies strictly above a later one |
| `RowPayload.PayloadPanicsIff` | backend/edge/handler/bulk_handler.go:1163-1194 | building a payload panics exactly when a header (or the row reference) followed by a dot starts a later header |
| `RowPayload.LeavesExactly` | backend/edge/handler/bulk_handler.go:1163-1194 | a path of the payload holds a text if and only if the last write at or above it wrote that text there |
| `RowPayload.PayloadHolds` | backend/edge/handler/bulk_handler.go:1163-1194 | a path holds a text exactly when its parts joined by dots are the last header at or above it and the text is that cell; no key has a dot in it |
| `RowPayload.DistinctHeadersKeepTheirCells` | backend/edge/handler/bulk_handler.go:1163-1194 | when no header lies above or repeats another, going down the parts of a header finds its cell, or an empty string when the row is short |
| `RowPayload.PanicDependsOnHeaders` | backend/edge/handler/bulk_handler.go:1163-1194 | whether building panics does not depend on the row |
| `RowPayloadBuilder.JsonObject.SetText` | backend/edge/handler/bulk_handler.go:1182-1183 | writing a string in place sets that entry and keeps the others |
| `RowPayloadBuilder.JsonObject.AddObject` | backend/edge/handler/bulk_handler.go:1185-1187 | a missing entry becomes an empty object |
| `RowPayloadBuilder.JsonObject.Put` | backend/edge/handler/bulk_handler.go:1178-1190 | walking down the nested objects in place does what the write on values does |
| `RowPayloadBuilder.BuildRowPayload` | backend/edge/handler/bulk_handler.go:1163-1194 | the in-place builder yields the specified tree, or panics where the specification does |
| `BaseParser.BuildColIndex` | backend/edge/services/base_parser.go:61-67 | each normalised header is indexed at its last occurrence, and nothing else is |
| `BaseParser.IndexOfIndexes` | backend/edge/services/base_parser.go:61-67 | of several headers with one normal form the last one is indexed |
| `BaseParser.ColumnIs` | backend/edge/services/base_parser.go:61-76 | a name finds the last header that is the same but for case and blanks, and nothing when there is none |
| `BaseParser.GetFromCandidates` | backend/edge/services/base_parser.go:71-86 | the scan over names returns the specified cell |
| `BaseParser.FirstTextWins` | backend/edge/services/base_parser.go:71-78 | the first name under which the row has text decides |
| `BaseParser.NoTextReadsAs` | backend/edge/services/base_parser.go:79-85 | without text under any name the result is the last of several names if that column is missing, else empty |
| `BaseParser.AmbiguousIff` | backend/edge/services/base_parser.go:33-48 | the separator counts and positions refuse exactly the amounts in which a point or comma follows a point |
| `BaseAmounts.GroupingIsIgnored` | backend/edge/services/base_parser.go:51-52 | commas before the point do not change how an amount is read |
| `BaseAmounts.BlanksAreIgnored` | backend/edge/services/base_parser.go:25-28 | nor do blanks around it |
| `BaseAmounts.CurrencyIsIgnored` | backend/edge/services/base_parser.go:30-31 | nor does a sign for rupees, dollars, euros, pounds or yen before it |
| `BaseAmounts.SpacedSignIsIgnored` | backend/edge/services/base_parser.go:30-31 | nor do blanks between the sign and the amount |
| `BaseAmounts.PlainNumberIsRead` | backend/edge/services/base_parser.go:51-58 | digits with at most one point are read as they stand |
| `ParsedRows.ParsedSnoc` | backend/edge/services/vendor_parser.go:40-48 | one more row keeps the partition: it adds one shape or at least one error, never both |
| `VendorParser.ReadGst` | backend/edge/services/vendor_parser.go:172-212 | GST passes exactly when its columns can be read and the total is within a rupee of the expected tax |
| `VendorParser.ReadTds` | backend/edge/services/vendor_parser.go:243-260 | TDS passes exactly when it is absent, or readable and within a rupee of the expected amount where that is checked |
| `VendorParser.CheckNet` | backend/edge/services/vendor_parser.go:262-271 | a nonzero amount passes exactly when it is within a rupee of a positive net |
| `VendorParser.ReadFigures` | backend/edge/services/vendor_parser.go:85-271 | no error exactly when every number can be read and the figures agree; then the figures are the row's |
| `VendorParser.CheckIdentifiers` | backend/edge/services/vendor_parser.go:109-139 | no error exactly when date, registration numbers, TDS section and account are acceptable |
| `VendorParser.CheckKyc` | backend/edge/services/vendor_parser.go:273-321 | no error exactly when the vendor is not suspended and has what its policy class demands |
| `VendorParser.ParseRow` | backend/edge/services/vendor_parser.go:52-342 | no error exactly when the row is acceptable; every error names the row, and the shape carries its row reference |
| `VendorParser.Parse` | backend/edge/services/vendor_parser.go:35-50 | each row gives one shape or an error and not both, both lists in row order |
| `VendorAmounts.ShareIsNear` | backend/edge/services/vendor_parser.go:173-174 | the rounded tax is within half a paisa of the exact one |
| `VendorAmounts.AcceptedRowsPayTheirRates` | backend/edge/services/vendor_parser.go:172-271 | an accepted row with positive taxable value, checked GST and TDS, an amount and a positive net pays within 3.01 rupees of V(1 + g/100 - t/100) |
| `VendorRules.OwnColumnsAreRead` | backend/edge/services/vendor_parser.go:52-318 | a row with text under a column's own name has that text as its cell, identifiers in capitals and policy cells in small letters |
| `VendorRules.ListedRatesAndSections` | backend/edge/services/vendor_parser.go:109-170 | an accepted row has no GST rate or one of 0, 5, 12, 18 and 28, and no TDS section or one of six |
| `VendorRules.GstIsIgnored` | backend/edge/services/vendor_parser.go:140-212 | under reverse charge, without a taxable value or without a rate the GST columns change neither whether a row is accepted nor its tax, which is nought |
| `VendorRules.OtherwiseGstIsChecked` | backend/edge/services/vendor_parser.go:172-212 | otherwise the GST of an accepted row is within a rupee and half a paisa of its rate |
| `VendorRules.PapersDecide` | backend/edge/services/vendor_parser.go:273-321 | the policy check is that every paper the policy class asks for is there; stricter classes ask for more |
| `VendorGaps.BoundIsSharp` | backend/edge/services/vendor_parser.go:172-271 | accepted rows to which all checks apply come as close to 3.01 rupees as one likes |
| `VendorGaps.SheetAccepted` | backend/edge/services/vendor_parser.go:85-271 | a row whose written numbers agree is accepted with just those figures |
| `VendorGaps.EachTieIsNeeded` | backend/edge/services/vendor_parser.go:172-271 | with any one of the conditions missing there are accepted rows that are arbitrarily far off |
| `VendorSheets.FileRowReads` | backend/edge/services/base_parser.go:61-86 | rows under twenty given headers read as those cells |
| `VendorSheets.FileRowsAreSharp` | backend/edge/services/vendor_parser.go:35-50 | the rows that come close to 3.01 rupees are rows of a file |
| `VendorSheets.FileRowsNeedEachTie` | backend/edge/services/vendor_parser.go:35-50 | so are the rows that are arbitrarily far off |
| `VendorAmounts.BlankNumberRefusesRow` | backend/edge/services/base_parser.go:69-86 | a blank number in a file without the alternative column refuses the row |
| `VendorAmounts.BlankIdentifierRefusesRow` | backend/edge/services/vendor_parser.go:109-139 | a blank date, GSTIN, TDS section, PAN or MSME number in a file without the alternative column refuses the row |
| `VendorAmounts.NumberIsEmptyIff` | backend/edge/services/base_parser.go:69-86 | an optional number counts as not given exactly when it is left out in a file that has the alternative column |
| `VendorAmounts.IdentifierIsEmptyIff` | backend/edge/services/base_parser.go:69-86 | the same for the optional identifiers |
| `VendorAmounts.AccountIsMissedIff` | backend/edge/services/vendor_parser.go:334-336 | a missing fund account is noticed exactly in a file with a column "fund account id" |
| `VendorAmounts.AccountIsNeverMissed` | backend/edge/services/vendor_parser.go:334-336 | without that column the missing-account check cannot fire |
| `BulkPipeline.StepConserves` | backend/edge/handler/bulk_handler.go:459-550 | every job sent is in the queue, in one worker's hands or finished, with multiplicity |
| `BulkPipeline.EveryRunConserves` | backend/edge/handler/bulk_handler.go:459-550 | that conservation holds under every interleaving |
| `BulkPipeline.EveryRunIsRight` | backend/edge/handler/bulk_handler.go:503-546 | at every moment each finished job's row holds its result, each recorded row what was recorded, and every result is explained by one of them |
| `BulkPipeline.DoneIsComplete` | backend/edge/handler/bulk_handler.go:459-714 | once done, every job sent was processed exactly once and decided its row, and exactly the rows the producer mentioned have results |
| `BulkPipeline.ResultsKnowTheirRows` | backend/edge/handler/bulk_handler.go:503-546 | each result stands under its own row number |
| `BulkPipeline.SomebodyCanMove` | backend/edge/handler/bulk_handler.go:446-464 | with at least one worker the bounded queue never deadlocks |
| `BulkPipeline.StuckIsDone` | backend/edge/handler/bulk_handler.go:446-550 | with at least one worker and no panic, a run that cannot go on is done |
| `BulkPipeline.StepsUseUpWork` | backend/edge/handler/bulk_handler.go:459-550 | every possible step strictly reduces the work left |
| `BulkPipeline.EveryScheduleEnds` | backend/edge/handler/bulk_handler.go:459-714 | no interleaving takes more than three steps for each emission |
| `BulkPipeline.QueueIsBounded` | backend/edge/handler/bulk_handler.go:446-464 | in every run the queue holds at most 500 rows, and the producer waits only when it is full |
| `BulkOutcomes.ProfileRowIsTold` | backend/edge/handler/bulk_handler.go:503-546 | in a done upload a malformed row is answered failed, one with a formula rejected, a blank one nothing, and any other by how its one ingest ended: stored accepted, stored before duplicate, mismatch or in flight conflict, else failed, under its row and key |
| `BulkOutcomes.UnwrittenRowsFail` | backend/edge/handler/bulk_handler.go:665-676 | a row the parser took but whose shape cannot be encoded has failed under its file row |
| `BulkOutcomes.DuplicatesIff` | backend/edge/handler/bulk_handler.go:503-546 | under every interleaving all results are duplicates exactly when every row was sent and had been stored before |
| `BulkOutcomes.AnswerProfileUpload` | backend/edge/handler/bulk_handler.go:1096-1143 | a done upload is answered as a duplicate batch exactly when some row is not blank, every such row was sent and each had been stored before; as empty exactly when all rows are blank; a summary lists the other rows in file order |
| `BulkOutcomes.ParserAllSentIff` | backend/edge/handler/bulk_handler.go:650-700 | on the parser path every emission is a job exactly when every row that is not blank is accepted by the reader, the parser and the encoder |
| `BulkOutcomes.AnswerParserUpload` | backend/edge/handler/bulk_handler.go:1096-1143 | a parsed upload is answered as a duplicate batch exactly when some row is not blank, every such row was accepted and each had been stored before |
| `BulkRows.IsEmpty` | backend/edge/handler/bulk_handler.go:591-601 | a row is skipped exactly when every cell is blank |
| `BulkRows.CheckRowForFormulas` | backend/edge/handler/bulk_handler.go:1412-1427 | a row is rejected exactly when some cell is a formula |
| `BulkRows.ServerKeysDiffer` | backend/edge/handler/bulk_handler.go:624-639 | rows without a key of their own get different keys under a collision-free hash |
| `BulkRows.RowKeysMeetIff` | backend/edge/handler/bulk_handler.go:624-639 | in both modes and for all own keys, two rows get one key exactly when they are the same row without keys, repeat one own key, or one row's own key spells out the stand-in made from the file's own hash |
| `BulkKeys.OwnKeyIsCell` | backend/edge/handler/bulk_handler.go:1145-1161 | a row carries the trimmed cell of its column "idempotency_key" as its key, and none without such a column |
| `BulkKeys.KeysMeetAcrossUploadsIff` | backend/edge/handler/bulk_handler.go:624-639 | rows of two ordinary uploads without keys of their own get the same key exactly when they are the same row of the same file for the same tenant |
| `BulkKeys.ReprocessingGivesNewKeys` | backend/edge/handler/bulk_handler.go:178-182 | reprocessing under another batch or tenant gives every row another key, and a row without one of its own a key no ordinary upload gives it |
| `BulkRows.ReadProfileRows` | backend/edge/handler/bulk_handler.go:567-649 | the read loop emits, row by row, what each row leads to, and stops at a panic |
| `BulkRows.ReadParserRows` | backend/edge/handler/bulk_handler.go:567-649 | the read loop records malformed and rejected rows and keeps the others with their file row numbers |
| `BulkRows.FlattenSourceRows` | backend/edge/handler/bulk_handler.go:1196-1205 | parser row i is mapped to the file row of the i-th kept row |
| `BulkRows.RefRoundTrip` | backend/edge/handler/bulk_handler.go:665-666 | a printed row reference reads back to its number |
| `BulkRows.DispatchErrors` | backend/edge/handler/bulk_handler.go:653-662 | each parse error is recorded as a failure of its file row |
| `BulkRows.DispatchShapes` | backend/edge/handler/bulk_handler.go:664-696 | each shape is sent under its file row, or recorded as failed when it cannot be encoded |
| `BulkAnswers.ProfileStopsIff` | backend/edge/handler/bulk_handler.go:614-623 | reading stops with a panic exactly when the headers clash and some row is neither malformed, blank nor rejected |
| `BulkAnswers.StoppedIsNeverDone` | backend/edge/handler/bulk_handler.go:614-623 | after a panic the upload is never done |
| `BulkAnswers.ProfileProgramIsRight` | backend/edge/handler/bulk_handler.go:567-649 | on the profile path each row that is not blank is emitted once and blank rows are not |
| `BulkAnswers.ParserProgramIsRight` | backend/edge/handler/bulk_handler.go:648-697 | on the parser path, given the shape-or-error partition, exactly the rows that are not blank are emitted, and a row that is sent has nothing recorded |
| `BulkAnswers.FileRowAt` | backend/edge/handler/bulk_handler.go:1196-1212 | looking up parser row i gives the file row of the i-th kept row |
| `BulkAnswers.ProfileUploadIsAccounted` | backend/edge/handler/bulk_handler.go:459-714 | under every interleaving each row that is not blank ends with one result under its number, blank rows with none |
| `BulkAnswers.ProfileRowsGetTheirResult` | backend/edge/handler/bulk_handler.go:503-546 | malformed rows have failed, formula rows are rejected, and any other row's payload was processed exactly once and decides its result |
| `BulkAnswers.ParserUploadIsAccounted` | backend/edge/handler/bulk_handler.go:648-714 | the same accounting holds for every parser that gives each row a shape or an error |
| `BulkAnswers.ProfileUploadIsAnswered` | backend/edge/handler/bulk_handler.go:459-714 | on the profile path a run that cannot go on has accounted for every row, unless reading stopped at a panic |
| `BulkAnswers.ParserUploadIsAnswered` | backend/edge/handler/bulk_handler.go:648-714 | on the parser path a run that cannot go on has accounted for every row |
| `BulkAnswers.RefusedRowsFail` | backend/edge/handler/bulk_handler.go:653-662 | a row the parser refuses has failed under its number in the file |
| `BulkAnswers.ParsedRowsAreProcessed` | backend/edge/handler/bulk_handler.go:664-696 | a row the parser accepts had its shape, labelled with its file row, processed exactly once |
| `BulkResponse.AssembleResults` | backend/edge/handler/bulk_handler.go:701-711 | the list holds the results of rows 1 up to the greatest row, in order |
| `BulkResponse.InOrderFacts` | backend/edge/handler/bulk_handler.go:701-711 | that list is strictly increasing in rows and holds exactly the results in range |
| `BulkResponse.AnswersInFileOrder` | backend/edge/handler/bulk_handler.go:701-711 | the rows answered are the rows of the file that are not blank, in file order |
| `BulkResponse.CountsAddUp` | backend/edge/handler/bulk_handler.go:1105-1119 | the five counters add up to the total |
| `BulkResponse.RespondBulkResults` | backend/edge/handler/bulk_handler.go:1096-1143 | no rows give an error, all duplicates give one conflict answer, anything else a summary whose counters add up |
| `VendorUpload.ReadVendorFile` | backend/edge/handler/bulk_handler.go:648-697 | with the vendor parser the dispatched shapes and errors partition the kept rows |
| `WebhookStore.MemoryWebhookStore.PersistWebhookObservation` | backend/edge/services/razorpay_webhook_store.go:303-362 | a delivery opens a receipt and an outbox event, counts a repeat, reports a conflict or fails without a trace |
| `WebhookStore.MemoryKeyIdentifies` | backend/edge/services/razorpay_webhook_store.go:299-301 | two pairs of connector and event never share a key, whatever the event id contains |
| `WebhookStore.UuidTextReads` | backend/edge/services/razorpay_webhook_store.go:299-301 | the text of a UUID in a key has 36 characters: two lower-case hexadecimal digits a byte, and four dashes |
| `WebhookHistory.ReceiptsAccountForHistory` | backend/edge/services/razorpay_webhook_store.go:303-362 | after any history a receipt exists exactly when some delivery could open it; it carries the first such delivery's hash and counts that one and the later ones with the same hash |
| `WebhookHistory.RefusalsChangeNothing` | backend/edge/services/razorpay_webhook_store.go:307-337 | the store changes exactly when the delivery is neither refused nor in conflict |
| `WebhookHistory.EveryHistoryIsOneToOne` | backend/edge/services/razorpay_webhook_store.go:339-355 | receipts and outbox events correspond one to one with the same connector, event, receipt and hash |
| `WebhookHistory.FirstAnswer` | backend/edge/services/razorpay_webhook_store.go:303-362 | the first delivery of an event that finds store and outbox working is published under its own id; faults before that are answered as such |
| `WebhookHistory.LaterAnswer` | backend/edge/services/razorpay_webhook_store.go:316-337 | a later delivery with the same body is a counted duplicate of the first, one with another body a conflict with it |
| `WebhookHistory.OutboxIsOpenings` | backend/edge/services/razorpay_webhook_store.go:339-355 | the outbox is the list of the first deliveries, in the order they came |
| `AuthSessions.AuthDatabase.StoreRefreshToken` | backend/edge/services/user_auth_service.go:443-458 | a token's row is inserted with its idle and absolute limits, or nothing changes |
| `AuthSessions.AuthDatabase.SignIn` | backend/edge/services/user_auth_service.go:219-238 | a sign-in issues a pair that starts a session now and stores its refresh token |
| `AuthSessions.AuthDatabase.RefreshSession` | backend/edge/services/user_auth_service.go:267-381 | a refresh answers each refusal in the source's order, or replaces the old row and stores the new one together |
| `AuthSessions.AuthDatabase.RevokeRefreshToken` | backend/edge/services/user_auth_service.go:384-395 | a logout with a readable token revokes its row and nothing else; a lost write goes unnoticed |
| `AuthSessions.AuthDatabase.RevokeAllUserSessions` | backend/edge/services/user_auth_service.go:398-405 | exactly the user's rows are revoked, or the failed write is reported |
| `SessionRuns.IssuedRight` | backend/edge/services/jwt_service.go:80-152 | a pair for a session is issued exactly up to eight hours after the second it started in, and carries that start and limit |
| `SessionRuns.RefreshGranted` | backend/edge/services/user_auth_service.go:326-358 | a granted refresh presented the very token that is stored, unrevoked, and exchanges it for one of the same session |
| `SessionRuns.EveryRunKeepsInvariant` | backend/edge/services/user_auth_service.go:443-458 | in every run each stored token has its session's limits and hash, belongs to the user who signed in, and older tokens of a session are revoked |
| `SessionRuns.WallsNeverGrow` | backend/edge/services/jwt_service.go:115-121 | the absolute limit is t+8h for the first token and floor(t)+8h for all later ones, never grows, and no access token of the session outlives t+8h15m |
| `SessionRuns.RefreshSucceedsIff` | backend/edge/services/user_auth_service.go:267-336 | a refresh succeeds exactly for the live stored token of an active account within the idle window and before floor(t)+8h, for the first token too |
| `SessionRuns.OlderTokensCannotRefresh` | backend/edge/services/user_auth_service.go:326-336 | a token whose claims lack the session start is never exchanged once eight hours of 1970 are over |
| `SessionRuns.RevokedRowsAreFinal` | backend/edge/services/user_auth_service.go:383-405 | a revoked row never changes again |
| `SessionRuns.RotatesAtMostOnce` | backend/edge/services/user_auth_service.go:344-358 | a run exchanges each token at most once and revokes it with that |
| `SessionRuns.OneLiveTokenPerSession` | backend/edge/services/user_auth_service.go:344-358 | a session has at most one token that is not revoked |
| `SessionRuns.RevokeAllEndsSessions` | backend/edge/services/user_auth_service.go:397-405 | after a successful sign-out everywhere no earlier session of the user gets a new token or has a usable one, whatever follows |
| `SessionAnswers.RefreshAnswers` | backend/edge/services/user_auth_service.go:267-358 | which answer a refresh gets in any reachable state: token not issued, revoked or past eight hours, idle for more than 15 min, session over, account missing or disabled, too late to issue, or not stored; only a granted one changes a row |
| `SessionAnswers.SessionEndIsSeenInPassing` | backend/edge/services/user_auth_service.go:300-306 | the session-over answer is given only when the limit falls between reading the token and checking its row; later the token no longer parses |
| `SessionAnswers.GrantLeaves` | backend/edge/services/user_auth_service.go:338-381 | a granted refresh hands out 15 minutes of access within the eight hours of the session and replaces the old row by the new one |
| `SessionAnswers.SignInAnswers` | backend/edge/services/user_auth_service.go:219-238 | a sign-in is granted exactly when its row can be written, with 15 minutes of access and eight hours of session |
| `SessionAnswers.SignedOutStaysOut` | backend/edge/services/user_auth_service.go:383-395 | a token that was signed out is refused over any continuation |
| `LoginLockout.UserRow.LoginUser` | backend/edge/services/user_auth_service.go:198-233 | a sign-in is refused, fails and counts, locks from the fifth failure on, or resets the counters |
| `LoginLockout.HistoriesAreSane` | backend/edge/services/user_auth_service.go:205-214 | over every history a lock is set exactly from the fifth failure on |
| `LoginLockout.GuessesAreSpaced` | backend/edge/services/user_auth_service.go:198-217 | over every history in which nobody gets in, counted wrong guesses use up the free ones and then each locks the account for a lock period; uncounted ones do not |
| `LoginLockout.GuessRateIsBounded` | backend/edge/services/user_auth_service.go:198-217 | while no correct password is both given and stored, the wrong guesses over a span T number at most 5 + T / 15 min plus those whose counting write was lost |
| `LoginLockout.BoundIsReached` | backend/edge/services/user_auth_service.go:198-217 | for every number of lost writes and every whole number of lock periods some history reaches that bound |
| `LoginHistory.HistoryTellsColumns` | backend/edge/services/user_auth_service.go:205-232 | after any history the lockout columns are those of the failures counted since the last stored sign-in |
| `LoginHistory.AnswerFollowsHistory` | backend/edge/services/user_auth_service.go:190-240 | the answer follows from that history: disabled, locked while five failures are less than 15 min old, wrong, signed in or not stored |
| `LoginHistory.FiveGuessesAfterSignIn` | backend/edge/services/user_auth_service.go:230-232 | after a stored sign-in, whatever came before, the next five sign-ins are all compared |
| `StableSort.SortDescSpec` | backend/agents/repositories/live_sql_ranking.go:42-47 | the sort is a descending permutation that keeps the order of equal scores |
| `StableSort.StableSortIsUnique` | backend/agents/repositories/live_sql_ranking.go:42-47 | any stable descending sort gives the same result |
| `Ranking.RankAndTrimBalanced` | backend/agents/repositories/live_sql_ranking.go:9-68 | the result is everything, the best pinned chunks, or all pinned chunks followed by a water filling of the rest |
| `Ranking.BuildBuckets` | backend/agents/repositories/live_sql_ranking.go:34-38 | each bucket holds its own chunks in order |
| `Ranking.OrderKeys` | backend/agents/repositories/live_sql_ranking.go:40-47 | every bucket occurs once, best head first |
| `Ranking.DealRound` | backend/agents/repositories/live_sql_ranking.go:52-62 | one round takes the next chunk of each bucket that has one until the limit is reached |
| `Ranking.DealBuckets` | backend/agents/repositories/live_sql_ranking.go:34-67 | more chunks than the limit are dealt into exactly the limit |
| `Ranking.DealtShares` | backend/agents/repositories/live_sql_ranking.go:49-66 | each bucket contributes a prefix: one chunk more before the cut than after it, as far as it goes |
| `RankingFairness.WaterFilling` | backend/agents/repositories/live_sql_ranking.go:34-67 | there are a level and a cut such that buckets before the cut give min(size, level+1) and the others min(size, level) of their best chunks |
| `RankingFairness.BucketShare` | backend/agents/repositories/live_sql_ranking.go:34-67 | what is chosen of a bucket is a prefix of its stable descending order |
| `RankingFairness.NoBucketStarves` | backend/agents/repositories/live_sql_ranking.go:49-66 | a bucket served two chunks less than another is used up |
| `RankingFairness.ChosenScoreBest` | backend/agents/repositories/live_sql_ranking.go:42-56 | a chunk left out scores no better than a chosen one of its bucket |
| `RankingFairness.ResultIsSubMultiset` | backend/agents/repositories/live_sql_ranking.go:9-68 | nothing is invented or doubled and the length is min(topK, n) for a positive limit |
| `RankingFairness.PinnedComeFirst` | backend/agents/repositories/live_sql_ranking.go:24-31 | when something has to go, pinned chunks come first and stay while they fit |
| `RankingFairness.ResultIsDetermined` | backend/agents/repositories/live_sql_ranking.go:40-47 | without ties between bucket heads the result does not depend on map order |
| `ServiceFairness.BucketsAreSources` | backend/agents/repositories/live_sql_ranking.go:70-88 | two chunks share a bucket exactly when both are of one of the six services, or have the same source type but for case and blanks |
| `ServiceFairness.SourcesGiveTheirBest` | backend/agents/repositories/live_sql_ranking.go:34-67 | of each source the result has the top of its chunks in stable descending order |
| `ServiceFairness.NoSourceStarves` | backend/agents/repositories/live_sql_ranking.go:49-66 | a source that gets two chunks less than another has no more to give |
| `ServiceFairness.ExactCountsLead` | backend/agents/repositories/live_sql_ranking.go:14-31 | exact counts of a batch lead the result in their order, and only the best of them when they are too many themselves |
| `Merging.MergeRetrievedChunks` | backend/agents/services/hybrid_retriever.go:63-87 | the loop yields the primary list followed by the new items of the secondary one |
| `Merging.CutBytesKeeps` | backend/agents/services/hybrid_retriever.go:97-99 | a text of up to 160 bytes is in the key whole, of a longer one a prefix and at most three replacement characters |
| `Merging.Utf8SizeIsShortest` | backend/agents/services/hybrid_retriever.go:97-99 | characters are measured by their shortest UTF-8 form |
| `Merging.NoKeyIff` | backend/agents/services/hybrid_retriever.go:89-95 | only a chunk with neither source nor text has no key |
| `Merging.SameKeyIff` | backend/agents/services/hybrid_retriever.go:89-102 | two chunks count as the same exactly when source and the first 160 bytes of text agree in lower case, or a bar in the longer source stands for the one between source and text |
| `Merging.CutSeesTheFront` | backend/agents/services/hybrid_retriever.go:97-99 | texts that agree in their first 160 bytes are cut to the same |
| `Merging.NewItemsAreFresh` | backend/agents/services/hybrid_retriever.go:75-84 | no appended item repeats a key of the primary list or of another appended item |
| `Merging.MergeKeys` | backend/agents/services/hybrid_retriever.go:63-87 | the merged list covers exactly the keys of both lists |
| `Merging.MergeAssociates` | backend/agents/services/hybrid_retriever.go:63-87 | merging twice is merging the concatenation |
| `Merging.MergeIdempotentIff` | backend/agents/services/hybrid_retriever.go:63-87 | merging the same list again changes nothing exactly when all its items have keys |
| `VectorDocuments.SanitizeVectorIndexChunks` | backend/agents/repositories/vector_indexer.go:240-260 | chunks without text are dropped, the others trimmed |
| `VectorDocuments.CompactVectorEventChunks` | backend/agents/repositories/vector_indexer.go:261-307 | the chunks become one document of the entity's type, with each source type listed once and each text under its source |
| `VectorDocuments.DocumentsAre` | backend/agents/repositories/vector_indexer.go:133-138 | there is one document, with the entity's source type and with text, exactly when some chunk has text |
| `VectorDocuments.SameDocumentIff` | backend/agents/repositories/vector_indexer.go:133-138 | two answers of the source service give a request one document exactly when neither has text, or both have and show the same source types and content |
| `VectorDocuments.ContentIsLostIff` | backend/agents/repositories/vector_indexer.go:294-306 | with the same source types: exactly when the contents are equal or both end in ":" or ": -" |
| `VectorDocuments.ContentEndingInColonIsLost` | backend/agents/repositories/live_sql_formatting.go:19-29 | two chunks with different text and one document |
| `VectorDocuments.SameDocumentAgainIff` | backend/agents/repositories/vector_indexer.go:294-306 | a request that comes back without batch and with its type in lower case has the same document exactly when there is none, or the type shows no capitals and no batch was named |
| `VectorIndexer.Indexer.HandleVectorIndexRequest` | backend/agents/repositories/vector_indexer.go:70-91 | an upsert or delete request acts on index and state table as specified, with every fault |
| `VectorIndexer.Indexer.RetryDueRateLimited` | backend/agents/repositories/vector_indexer.go:103-122 | the due rows are turned into requests and handled one after another, whatever becomes of each |
| `VectorIndexer.Indexer.UpsertEventVectors` | backend/agents/repositories/vector_indexer.go:124-197 | the chunks are made into a document; changed vectors are upserted and their rows marked according to the outcome |
| `VectorIndexer.Indexer.EmbedChangedEventChunks` | backend/agents/repositories/vector_indexer.go:308-403 | documents the state table vouches for are skipped, the others embedded or marked failed or rate limited; a cancelled request stops without marking |
| `VectorIndexer.Indexer.DeleteEventVectors` | backend/agents/repositories/vector_indexer.go:199-238 | vectors and rows of the entity go together, or the error is reported |
| `VectorIndexRuns.PlanKeepsAgreement` | backend/agents/repositories/vector_indexer.go:308-403 | for any number of documents the table stays truthful if no mark is lost whose vector reached the index |
| `VectorIndexRuns.UpsertKeepsAgreement` | backend/agents/repositories/vector_indexer.go:124-197 | an upsert request keeps the table truthful unless the mark of a vector that reached the index is lost |
| `VectorIndexRuns.EveryRunAgrees` | backend/agents/repositories/vector_indexer.go:124-238 | in every run that loses no write for a vector that reached the index or was deleted, a row marked indexed means the index holds that vector with that content hash; marks after failures may be lost |
| `VectorIndexRuns.RunAgreesIff` | backend/agents/repositories/vector_indexer.go:124-238 | with writes lost anywhere, the table is truthful throughout a run exactly when no request breaks it where it comes |
| `VectorIndexRuns.LostUpsertWriteIff` | backend/agents/repositories/vector_indexer.go:159-181 | whatever fails, an upsert leaves the table truthful exactly unless the vector reached the index, even by a failing call, its mark was lost and the table vouched for another content |
| `VectorIndexRuns.LostDeleteWriteIff` | backend/agents/repositories/vector_indexer.go:218-226 | whatever fails, a delete leaves the table truthful exactly unless the vectors went, the rows stayed and the table vouched for one of them |
| `VectorIndexRuns.SkippedIsInIndex` | backend/agents/repositories/vector_indexer.go:348-399 | a skipped document is in the index under the id and hash that embedding it would give |
| `VectorIndexRuns.SuccessMeansCurrent` | backend/agents/repositories/vector_indexer.go:124-197 | after a successful upsert the index holds the current document of the entity |
| `VectorIndexRuns.ChangedContentIsSkipped` | backend/agents/repositories/vector_indexer.go:354-362 | after a successful upsert a change that the document does not show is skipped |
| `VectorIndexRuns.HandledIndex` | backend/agents/repositories/vector_indexer.go:124-238 | after one request a vector is in the index exactly when it was written, or was there and neither deleted nor written over |
| `VectorIndexRuns.IndexHoldsIff` | backend/agents/repositories/vector_indexer.go:124-238 | after any run, with anything failing, the index holds exactly the vectors some request wrote and none after it deleted or wrote over |
| `VectorChanges.HashTellsDocuments` | backend/agents/repositories/vector_indexer.go:435-444 | under a collision-free hash two documents of an entity have the same content hash exactly when they are the same |
| `VectorChanges.IndexFollowsDocuments` | backend/agents/repositories/vector_indexer.go:124-197 | after an upsert of an entity, another upsert of it leaves the index as it is exactly when its chunks make the same document |
| `VectorChanges.ModelChangeIsIndexed` | backend/agents/repositories/vector_indexer.go:354-362 | the same document under another embedding model or dimension is indexed again |
| `VectorChanges.UpsertLeavesRow` | backend/agents/repositories/vector_indexer.go:159-197 | an upsert that embeds leaves a row that names entity, event, version and model, says indexed since now and keeps the attempts, and the vector with its metadata |
| `VectorChanges.RowTellsOutcome` | backend/agents/repositories/vector_indexer.go:159-197 | the row after a call tells how it ended, counts a rate limit as an attempt with its retry time, and keeps the first 500 characters of a failure |
| `VectorChanges.DeletionTakesTheEntity` | backend/agents/repositories/vector_indexer.go:199-238 | after any run a deletion leaves exactly the vectors of other entities; those of every version of its own are gone |
| `VectorChanges.RepeatIsSkippedIff` | backend/agents/repositories/vector_indexer.go:354-362 | after any run and an upsert that works, the same request is skipped exactly when the model is configured without blanks around its name |
| `VectorChanges.RetryIsAccepted` | backend/agents/repositories/vector_indexer.go:104-114 | a retry rebuilt from the row of an accepted request is accepted too, as an upsert |
| `VectorChanges.AbsentIff` | backend/agents/repositories/live_sql_formatting.go:31-37 | values that say nothing read alike in a document: nothing, a dash, and null or <nil> in any case |
| `VectorChanges.AcceptedIsCarriedOut` | backend/agents/repositories/vector_indexer.go:70-91 | what the consumer accepts the indexer carries out |
| `VectorIds.IdTextDetermines` | backend/agents/repositories/vector_indexer.go:420-433 | without bars in the fields two id texts are equal exactly when all fields are |
| `VectorIds.SameIdTextAcceptedIff` | backend/agents/repositories/vector_indexer.go:420-433 | requests the consumer accepts share the id text exactly when they are of one tenant and service, type, entity id, type and version run together to one text |
| `VectorIds.SharesIff` | backend/agents/repositories/vector_indexer.go:420-433 | an accepted request shares its id text with one about something else exactly when that text has another reading |
| `VectorIds.SharesOnlyWithBars` | backend/agents/repositories/vector_indexer.go:420-433 | a request without bars in service and type can share its id with an accepted one that has them, though with no other |
| `VectorIds.SameIdTextIff` | backend/agents/repositories/vector_indexer.go:420-433 | in the case without bars in service and type: exactly when tenant, service and type agree and entity id, type and version run together to one text |
| `VectorIds.PlainSharesIff` | backend/agents/repositories/vector_indexer.go:420-433 | in that case a partner without bars exists exactly when the separator occurs again between trimmed texts |
| `VectorIds.BarsConfuseIds` | backend/agents/repositories/vector_indexer.go:420-433 | two entities of one type that share their vector id |
| `VectorIds.PositionsTellApart` | backend/agents/repositories/vector_indexer.go:420-433 | two documents of one event never share the id text |
| `VectorIds.RequestIdsDiffer` | backend/agents/repositories/vector_indexer.go:420-433 | under a collision-free hash the ids of one request are distinct |
| `VectorIds.RetriesNameTheirRow` | backend/agents/repositories/vector_indexer.go:104-114 | in every run the request a retry rebuilds from a row has that row's vector id |
| `VectorIds.NewVersionNewId` | backend/agents/repositories/vector_indexer.go:420-433 | under a collision-free hash a new content version gets a new vector id |
| `VectorIds.OldVersionsStay` | backend/agents/repositories/vector_indexer.go:124-197 | an upsert of a new version leaves the old version's vector in the index |
| `VectorIds.RetryHasSameDocumentIff` | backend/agents/repositories/vector_indexer.go:104-114 | a retry has the document first asked for exactly when there is none, or the type shows no capitals and no batch was named |
| `IndexConsumer.ValidEventsNameAnEntity` | backend/agents/repositories/vector_index_consumer.go:250-279 | an event that passes validation has what a deletion needs |
| `IndexConsumer.TryMessage` | backend/agents/repositories/vector_index_consumer.go:184-232 | a message is tried until an attempt settles it or all allowed attempts have failed |
| `IndexConsumer.ConsumeClaim` | backend/agents/repositories/vector_index_consumer.go:169-240 | the marked messages are a finished prefix, an error means the first unmarked one failed at every attempt, and the calls made are those of the messages reached |
| `IndexConsumer.TotalCallsBound` | backend/agents/repositories/vector_index_consumer.go:184-232 | n messages take at most (maxRetries + 1) n handler calls |
| `IndexConsumer.ReachesHandlerIff` | backend/agents/repositories/vector_index_consumer.go:250-279 | a message reaches the handler exactly when it can be read and its request has every field and one of the two operations |
| `Text.DecimalRoundTrip` | backend/edge/services/vendor_parser.go:338 | a printed row number reads back |
| `Text.AtoiItoa` | backend/edge/handler/bulk_handler.go:665-667 | converting a number to text and back gives the number |
| `Text.SplitJoins` | backend/edge/handler/bulk_handler.go:1178-1179 | the parts of a header joined by dots are the header, and have no dot in them |
| `Text.SplitOfJoin` | backend/edge/handler/bulk_handler.go:1178-1179 | no other parts are |
| `TextForms.SpacesAre` | backend/edge/services/base_parser.go:18 | the blanks are the twenty-five characters Unicode calls white space |
| `TextForms.AtoiReads` | backend/edge/handler/bulk_handler.go:665-667 | digits read as their number, with a sign too, and anything else as nought |
| `TextForms.TrimTakesBlanks` | backend/edge/services/base_parser.go:18 | trimming takes off the blanks on both sides and nothing else |
| `TextForms.UuidIff` | backend/agents/repositories/live_sql_retriever.go:17 | a text is taken for a UUID exactly when its parts between dashes are groups of 8, 4, 4, 4 and 12 hexadecimal digits with version 1 to 5 and variant 8 to b |

## Left out

- IdempotencyStore.EdgeDatabase.SaveRawIntent: an update that hits no key row returns with its transaction open until the request ends; the model has no change in that case.
- The expiry time and response snapshot of idempotency keys, which no code reads back.
- Requests with an empty idempotency key are modelled as the code treats them (they proceed, and can never be saved).
- OutboxTable.Table.LeaseOutboxBatch: the payload columns of the returned events are carried, not modelled; lease times that run out without a nack count no attempt, as in the source.
- AuthSessions.AuthDatabase.RefreshSession: concurrent use of one token, where both requests read the row before either writes, is not modelled; the database's own clock in revoked_at and its rounding to microseconds are not either.
- AuthSessions.AuthDatabase.SignIn: the sign-up path, which issues and stores tokens in the same way, and the reset of the lockout columns, which `LoginLockout` has.
- LoginLockout.UserRow.LoginUser: concurrent sign-ins to one account; bcrypt is the outcome of a comparison that takes time.
- VendorParser.ParseRow: error messages and the fields of the shape that no check reads; registration-number patterns and dates are parameters; an error's position among the errors of its row is not stated.
- VendorParser.ReadFigures: amounts and tax rates are reals, so the rounding of binary floating point is not modelled.
- BulkRows.ReadProfileRows: which cells count as formulas is a parameter, and file reading, size and type checks and artifact storage come before it.
- BulkPipeline.DoneIsComplete: what a worker does with a row is one of five outcomes; the ingest itself is in `IdempotencyStore`.
- BulkAnswers.RefusedRowsFail: of several errors of a row the last is the one shown; error texts are not modelled.
- WebhookStore.MemoryWebhookStore.PersistWebhookObservation: the SQL store, whose unique-violation path returns a result without committing and whose conflicts touch the last-seen time.
- VectorIndexer.Indexer.HandleVectorIndexRequest: how the source service builds its chunks; a failed delete of vectors has no partial effect.
- VectorIndexer.Indexer.RetryDueRateLimited: which rows are due, and in what order, is an input; the loop does not overlap the consumer.
- VectorIndexRuns.EveryRunAgrees: a state write is taken to be applied where a vector reached the index or was deleted; `RunAgreesIff` covers the runs in which it is not.
- IndexConsumer.ConsumeClaim: the pauses between attempts and the cancellation of a session.
- Merging.MergeRetrievedChunks: letters beyond ASCII keep their case.
- Ranking.RankAndTrimBalanced: scores that are not numbers, and case folding beyond ASCII.
- JSON encoding of payloads and shapes, SHA-256, signatures, encryption and the network.
- The reconciliation matcher, evidence Merkle trees, HTTP plumbing, prompts and the console.
