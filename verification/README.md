# Durable webhook delivery: a verified model

This project models the lease-based, at-least-once delivery queue of the Lenso outbound webhook
plugin and proves what it keeps over every run. Two tables, `webhook_deliveries` and
`webhook_delivery_attempts`, are driven by producers, operators and any number of workers that may
crash at any point.

| file | content |
|---|---|
| `Types.dfy`, `Order.dfy` | the tables, their CHECK constraints, and the two `ORDER BY` orders |
| `Claim.dfy`, `Transactions.dfy` | what each of the four transactions means, as a function of the tables it starts from |
| `Columns.dfy` | each transaction read on the columns, without the functions that define it |
| `Store.dfy` | the class `Postgres`: the transactions as imperative methods over the two tables |
| `Dispatch.dfy`, `Backoff.dfy`, `Framing.dfy` | outcome decision, retry delays, identities and signed bytes |
| `Service.dfy` | the class `Plugin`: enqueue, inspect, replay and the halves of a dispatch around its POST |
| `Protocol.dfy` | the state machine: tables, calls in flight, last commit time, log of everything that happened |
| `Fencing.dfy`, `Ledger.dfy` | tokens, the gapless receipt ledger, no stranded row |
| `Leases.dfy` | how long a lease lasts, one outcome per token, what a runtime failure leaves behind |
| `Agreement.dfy`, `LateCommits.dfy` | receipts and states agree; exactly when a receipt is lost |
| `Progress.dfy`, `Overlap.dfy` | termination measure, bounded maintenance, concurrent claims |
| `Idempotency.dfy`, `History.dfy`, `Sends.dfy`, `Schedule.dfy` | first writer wins, replay numbering, send bound, spaced retries |
| `EndToEnd.dfy` | from the enqueued bytes over the POST to the recorded answer |

The class methods and the state machine share one specification: every method of `Postgres` ends in
the state that a function of `Claim` or `Transactions` gives, and every step of `Protocol.Do` is one
of those functions. The run theorems therefore speak about the imperative transactions. What the
functions themselves mean is stated a second time, on columns, literals and text: in `Columns` for
the transactions, in `Dispatch` for receipts and states, in `Idempotency` for requests, and in
`Framing` by reading the digits back.

## Modelling decisions

- A transaction is atomic and reads one `now`, its `transaction_timestamp()`. An error rolls it back
  whole. CHECK constraints are evaluated before `ON CONFLICT DO NOTHING` looks for a conflict.
- `SKIP LOCKED` is an arbitrary set of skipped ids. One set serves both locking clauses of the claim:
  a row is either leased, and then only the expired batch locks it, or not, and then only the
  candidate query does.
- Timestamps are integers in microseconds, PostgreSQL's resolution. Text is bytes, ordered byte-wise.
- Runs take `Clocks`. Under `Arbitrary` nothing is assumed of successive timestamps; fencing, the
  ledger, idempotency, replay numbering, the send bound and the end-to-end theorem hold there. Under
  `Monotone`, `now` does not decrease in commit order, and the application's time at an outcome lies
  between the call's claim and its record transaction (one clock).
- What receipts say needs `Monotone`. This is more than a correct clock: a timestamp is the time a
  transaction begins, so a record that begins before its lease expires, waits, and commits after a
  claim has receipted the attempt loses its own receipt. `LateCommits` has a run that is in
  timestamp order but for this one commit, and states for every run exactly which outcomes lost
  their receipt.
- Sessions that overlap are claims over one snapshot. A later one skips the rows an earlier one
  holds locked; `SkippingMoreIsFree` lets any session also skip rows it never wanted.
- Every call in flight carries the configuration of the process it runs in, so configuration changes
  are runs whose steps use different configurations.
- A replay step may happen at any moment, which covers every interleaving of callers that load first
  and replay in a second transaction. `Plugin.CheckReplay` and `Plugin.CommitReplay` are the two
  parts; `Plugin.ReplayDelivery` runs them with nothing in between.
- SHA-256 and HMAC-SHA-256 are arbitrary functions with 32-byte results.

Where the code and its documentation differ, the model follows the code. The documentation sends
every non-retryable failure to the dead letters; in the code a failure of the HTTP client runtime
leaves the row leased until the lease expires (`service.rs` lines 249-268), and an HTTP status
outside 100..599 violates a CHECK and leaves it leased as well.

## Model

| member | source | states |
|---|---|---|
| Order.First | crates/lenso-outbound-webhook-plugin/src/storage.rs:205-206 | `ORDER BY ... LIMIT n` yields n rows, or all, each before every row left out |
| Order.FirstUnique | crates/lenso-outbound-webhook-plugin/src/storage.rs:205-206 | that ordering and limit admit exactly one set of rows |
| Order.BytesLessIsByteOrder | crates/lenso-outbound-webhook-plugin/src/storage.rs:205-206 | text is ordered by the first byte that differs, a prefix first |
| Claim.ClaimIsDetermined | crates/lenso-outbound-webhook-plugin/src/storage.rs:200-240 | the declarative batch and candidate conditions determine the whole claim |
| Claim.RetiredAndClaimedDisjoint | crates/lenso-outbound-webhook-plugin/src/storage.rs:214-240 | no row is both dead-lettered and leased by one statement |
| Claim.RetirementDoesNotMoveCandidate | crates/lenso-outbound-webhook-plugin/src/storage.rs:214-234 | selecting the candidate before or after the retirement selects the same row |
| Claim.ClaimIsBounded | crates/lenso-outbound-webhook-plugin/src/storage.rs:200-221 | at most the batch limit of rows is receipted, and nothing outside batch and candidate changes |
| Claim.CandidateFacts | crates/lenso-outbound-webhook-plugin/src/storage.rs:222-234 | a leased row was unlocked, had attempts left, and was due, or expired and receipted by the same statement |
| Claim.ClaimKeepsReceipts | crates/lenso-outbound-webhook-plugin/src/storage.rs:207-213 | an attempt that already has a receipt keeps it |
| Claim.ClaimKeepsStoreValid | crates/lenso-outbound-webhook-plugin/migrations/001_create_outbound_webhook.sql:18-43 | a claim never violates a constraint of the schema |
| Columns.BatchIsFirstEnded | crates/lenso-outbound-webhook-plugin/src/storage.rs:200-206 | the batch is the unlocked ended leases of the queue with fewer than `limit` of them before in lease_expires_at, delivery_id |
| Columns.DispatchBatch | crates/lenso-outbound-webhook-plugin/src/storage.rs:6-6 | a dispatch does so for its configured queue with limit 64 |
| Columns.WaitingRowIsClaimed | crates/lenso-outbound-webhook-plugin/src/storage.rs:222-234 | a queued or scheduled row past its available_at is leased, or one before it in available_at, created_at, delivery_id |
| Columns.EndedRowIsClaimed | crates/lenso-outbound-webhook-plugin/src/storage.rs:228-234 | so is a first ended row with attempts left |
| Columns.ClaimedRow | crates/lenso-outbound-webhook-plugin/src/storage.rs:222-234 | only such rows are leased |
| Columns.LeasedRow | crates/lenso-outbound-webhook-plugin/src/storage.rs:235-245 | the returned record and each column of the row that is leased |
| Columns.UnclaimedRow | crates/lenso-outbound-webhook-plugin/src/storage.rs:214-221 | each column of the rows that are retired; every other row stays |
| Columns.ClaimReceipt | crates/lenso-outbound-webhook-plugin/src/storage.rs:207-213 | exactly the current attempts of those first ended rows are receipted, as expired now, unless they have a receipt |
| Columns.AcceptedRecord | crates/lenso-outbound-webhook-plugin/src/storage.rs:276-312 | accepted exactly under the row's own live lease; each column afterwards, with a lease kept by a row that stays leased |
| Columns.InsertedRow | crates/lenso-outbound-webhook-plugin/src/storage.rs:92-131 | when a row is inserted or violates a CHECK, and each column of a new row |
| Store.Postgres.FindLeast | crates/lenso-outbound-webhook-plugin/src/storage.rs:232-233 | the scan returns the least row of its order |
| Store.Postgres.SelectExpired | crates/lenso-outbound-webhook-plugin/src/storage.rs:200-206 | the selection loop yields the first rows by lease expiry and id |
| Store.Postgres.ReceiptExpired | crates/lenso-outbound-webhook-plugin/src/storage.rs:207-213 | the receipting loop adds exactly the batch's missing receipts |
| Store.Postgres.RetireExhausted | crates/lenso-outbound-webhook-plugin/src/storage.rs:214-221 | the retirement loop dead-letters exactly the exhausted rows of the batch |
| Store.Postgres.ClaimDue | crates/lenso-outbound-webhook-plugin/src/storage.rs:188-260 | the step-by-step claim has the declarative meaning, for tables and returned row, that the `Columns` rows spell out |
| Store.Postgres.RecordOutcome | crates/lenso-outbound-webhook-plugin/src/storage.rs:263-317 | receipt and fenced update, as `Columns.AcceptedRecord` spells them out, happen together or, on any error, not at all |
| Store.Postgres.InsertOrGet | crates/lenso-outbound-webhook-plugin/src/storage.rs:87-163 | created, existing, conflict or identity collision, with the tables each leaves |
| Store.Postgres.BeginReplay | crates/lenso-outbound-webhook-plugin/src/storage.rs:319-338 | requeues exactly a dead letter below the replay limit |
| Store.Postgres.LastReceipt | crates/lenso-outbound-webhook-plugin/src/storage.rs:340-354 | the greatest receipt by replay count and attempt, or none |
| Store.Postgres.Load | crates/lenso-outbound-webhook-plugin/src/storage.rs:165-185 | the row with its newest receipt |
| Backoff.RetryDelayIsExact | crates/lenso-outbound-webhook-plugin/src/service.rs:311-316 | the clamped, shifted, saturating i64 delay is min(base * 2^(attempt-1), max) for every attempt |
| Backoff.RetryDelayDoubles | crates/lenso-outbound-webhook-plugin/src/service.rs:311-316 | first delay is the base, each next one doubles up to the maximum |
| Dispatch.FailureIsRetriedIffWorthIt | crates/lenso-outbound-webhook-plugin/src/service.rs:223-289 | an answered failure is retried exactly while it is not permanent and attempts are left |
| Dispatch.DecisionMeaning | crates/lenso-outbound-webhook-plugin/src/service.rs:212-296 | which causes lead to which states, for every record and answer |
| Dispatch.DecisionReceipt | crates/lenso-outbound-webhook-plugin/src/service.rs:212-248 | the receipt of each answer: its own outcome, the status and the body digest of a response, nothing of a failure, the time |
| Dispatch.DecisionState | crates/lenso-outbound-webhook-plugin/src/service.rs:271-296 | the state of each answer, from the status numbers and error kinds, and the exact time of a retry |
| Service.Plugin.EnqueueDelivery | crates/lenso-outbound-webhook-plugin/src/service.rs:41-87 | the enqueue answers and stores as specified; a created row holds the snapshot, its digest and the configuration |
| Service.Plugin.InspectDelivery | crates/lenso-outbound-webhook-plugin/src/service.rs:89-106 | malformed id, missing row, or the columns of the row with its newest receipt |
| Service.Plugin.CheckReplay | crates/lenso-outbound-webhook-plugin/src/service.rs:116-126 | what a replay is refused for before its transaction |
| Service.Plugin.CommitReplay | crates/lenso-outbound-webhook-plugin/src/service.rs:127-134 | requeues and returns the next count, or reports a row that is no replayable dead letter any more |
| Service.Plugin.ReplayDelivery | crates/lenso-outbound-webhook-plugin/src/service.rs:108-134 | undisturbed, both parts succeed exactly for a replayable dead letter |
| Service.Plugin.ClaimForDispatch | crates/lenso-outbound-webhook-plugin/src/service.rs:145-202 | idle, refused, or a POST of the stored bytes to the stored endpoint with all five headers, which a receiver accepts |
| Service.Plugin.RefuseDispatch | crates/lenso-outbound-webhook-plugin/src/service.rs:156-181 | a changed endpoint is recorded as a dead letter under the fence |
| Service.Plugin.FinishDispatch | crates/lenso-outbound-webhook-plugin/src/service.rs:206-308 | every answer is recorded and reported, with its status and the digest of its body, as the state the row is left in, or nothing changes |
| Framing.Hex | crates/lenso-outbound-webhook-plugin/src/protocol.rs:93-101 | the digit loop yields two lower-case digits for each byte, which read back as the byte |
| Framing.HexReads | crates/lenso-outbound-webhook-plugin/src/protocol.rs:93-101 | each byte is 16 times its first digit plus its second, in lower case |
| Framing.HexInjective | crates/lenso-outbound-webhook-plugin/src/protocol.rs:93-101 | equal hexadecimal texts come from equal bytes |
| Framing.StableDeliveryId | crates/lenso-outbound-webhook-plugin/src/protocol.rs:81-87 | an id always passes `valid_delivery_id` |
| Framing.ComputeDeliveryId | crates/lenso-outbound-webhook-plugin/src/protocol.rs:81-87 | feeding the digest in pieces gives the stable id |
| Framing.DeliveryIdReads | crates/lenso-outbound-webhook-plugin/src/protocol.rs:81-87 | an id is `wh_` and digits that read as the first 24 bytes of SHA-256 over endpoint, zero byte and event id |
| Framing.IdentityBytesDecode | crates/lenso-outbound-webhook-plugin/src/protocol.rs:81-86 | endpoint, NUL and event id decode uniquely |
| Framing.SameIdentityOrCollision | crates/lenso-outbound-webhook-plugin/src/protocol.rs:81-87 | ids are equal exactly when the truncated digests are, and framed bytes exactly when both parts are |
| Framing.SignPayload | crates/lenso-outbound-webhook-plugin/src/protocol.rs:46-61 | the signature reads as the MAC of id, dot, timestamp, dot and payload |
| Framing.ReceiverAcceptsIffSameMac | crates/lenso-outbound-webhook-plugin/src/protocol.rs:26-61 | from headers and body alone a receiver accepts exactly the bodies whose MAC is that of the signed one |
| Framing.SignedBytesDecode | crates/lenso-outbound-webhook-plugin/src/protocol.rs:55-59 | id, timestamp and payload are recovered from the signed bytes although fractions contain a dot |
| Ledger.ClaimKeepsLedger | crates/lenso-outbound-webhook-plugin/src/storage.rs:200-240 | a claim leaves no gap in the receipts of any delivery |
| Ledger.RecordKeepsLedger | crates/lenso-outbound-webhook-plugin/src/storage.rs:276-312 | neither does a record |
| Ledger.ReplayKeepsLedger | crates/lenso-outbound-webhook-plugin/src/storage.rs:324-331 | a replay closes a complete cycle and opens an empty one |
| Ledger.LastReceiptIsNewest | crates/lenso-outbound-webhook-plugin/src/storage.rs:345-347 | the newest receipt is that of the row's token, else of the attempt before, else the last of the finished cycle, else there is none |
| Fencing.StepMovesDb | crates/lenso-outbound-webhook-plugin/src/storage.rs:87-338 | no transaction deletes a row, moves it otherwise than listed, or touches a receipt |
| Fencing.TokensStrictlyIncrease | crates/lenso-outbound-webhook-plugin/src/storage.rs:235-245 | over any run the tokens granted for a delivery strictly increase |
| Fencing.OneWorkerPasses | crates/lenso-outbound-webhook-plugin/src/storage.rs:297-302 | in every reachable state at most one call in flight per delivery can pass the fence |
| Fencing.StaleWorkerChangesNothing | crates/lenso-outbound-webhook-plugin/src/storage.rs:296-317 | a worker without a live token changes neither table |
| Fencing.UnstorableStatusRollsBack | crates/lenso-outbound-webhook-plugin/migrations/001_create_outbound_webhook.sql:42-43 | a record fails a CHECK exactly for a status outside 100..599, and leaves the tables as they were |
| Fencing.LedgerIsGapless | crates/lenso-outbound-webhook-plugin/src/storage.rs:207-239 | finished cycles have receipts 1..n, the current one 1..attempts or one fewer while leased, none above the token |
| Fencing.NoStrandedRow | crates/lenso-outbound-webhook-plugin/src/storage.rs:222-231 | a row has a time from which claims see it exactly when it is not terminal |
| Leases.OneOutcomePerToken | crates/lenso-outbound-webhook-plugin/src/storage.rs:296-302 | over any run a token has at most one accepted outcome |
| Leases.OutcomeWithinLease | crates/lenso-outbound-webhook-plugin/src/storage.rs:296-302 | an outcome is accepted only within the sender's lease seconds of the grant of its token |
| Leases.RuntimeFailureKeepsLease | crates/lenso-outbound-webhook-plugin/src/service.rs:249-268 | after a recorded runtime failure claims see the row from the end of its granted lease, and not before |
| Agreement.DeliveredIffRecorded | crates/lenso-outbound-webhook-plugin/src/service.rs:213-222 | delivered exactly when the token's holder recorded a 2xx answer under a live lease |
| Agreement.ClaimKeepsUnreceipted | crates/lenso-outbound-webhook-plugin/src/storage.rs:200-240 | a claim writes no receipt for a token whose lease is still live after it |
| Agreement.DeliveredShowsOwnReceipt | crates/lenso-outbound-webhook-plugin/src/storage.rs:276-302 | with monotone clocks the last receipt of a delivered row is that worker's own, with the status and body digest it was answered with |
| Agreement.NoEarlyGiveUp | crates/lenso-outbound-webhook-plugin/src/service.rs:271-289 | a dead letter with attempts left shows a permanent failure as its last receipt |
| LateCommits.LateCommitHidesDelivery | crates/lenso-outbound-webhook-plugin/src/storage.rs:207-213 | a run whose last record alone commits after a later timestamp, and whose delivered row shows an expired lease |
| LateCommits.ReceiptLostIffClaimStampedLater | crates/lenso-outbound-webhook-plugin/src/storage.rs:276-302 | in any commit order an accepted record stores its own receipt exactly when no claim stamped later receipted the token first |
| LateCommits.OwnReceiptIffNotFoundExpired | crates/lenso-outbound-webhook-plugin/src/storage.rs:276-302 | over any run a settling outcome keeps its own receipt exactly when no claim stamped later found its token expired |
| LateCommits.DeliveredShowsSuccessIffNotFound | crates/lenso-outbound-webhook-plugin/src/storage.rs:340-354 | so a delivered row shows its 2xx, with status and body digest, exactly then, and that claim's expiry otherwise |
| LateCommits.GiveUpShowsPermanentIffNotFound | crates/lenso-outbound-webhook-plugin/src/service.rs:271-289 | and a dead letter with attempts left shows a permanent failure exactly then |
| Progress.ClaimUsesWork | crates/lenso-outbound-webhook-plugin/src/storage.rs:214-239 | the measure never rises in a claim and falls in a productive one |
| Progress.ProductiveClaimsAreBounded | crates/lenso-outbound-webhook-plugin/src/storage.rs:200-239 | without enqueue and replay, grants of a run number at most the starting work |
| Progress.UnskippedClaimProgresses | crates/lenso-outbound-webhook-plugin/src/storage.rs:200-239 | an unskipped claim uses up work whenever its queue has a due or expired row, even if it returns nothing |
| Progress.ClaimKeepsSettled | crates/lenso-outbound-webhook-plugin/src/storage.rs:200-240 | one claim, whatever its limit and skipped rows, loses nothing of what is to be done |
| Progress.BoundedMaintenanceSettles | crates/lenso-outbound-webhook-plugin/src/storage.rs:200-240 | enough claims at one time reach the closed form of unlimited maintenance, whatever the limits |
| Progress.EveryRowClaimedOnce | crates/lenso-outbound-webhook-plugin/src/storage.rs:222-251 | those claims return each due or retryable expired row exactly once |
| Progress.ActionableRowIsHandled | crates/lenso-outbound-webhook-plugin/src/storage.rs:200-240 | a reachable row past its time gets leased, or dead-lettered and receipted when exhausted |
| Overlap.SkippingMoreIsFree | crates/lenso-outbound-webhook-plugin/src/storage.rs:205-234 | skipping rows that a claim would not lock changes neither its result nor its tables |
| Overlap.OverlappingClaimsSerialise | crates/lenso-outbound-webhook-plugin/src/storage.rs:205-234 | two claims over one snapshot that lock different rows share no delivery and no receipt, and either may commit first |
| Overlap.InterleavingIsSequential | crates/lenso-outbound-webhook-plugin/src/postgres_tests.rs:257-281 | any number of sessions, each skipping what earlier ones locked, get and leave what each chose over the common snapshot |
| Overlap.DisjointSessionsSerialise | crates/lenso-outbound-webhook-plugin/src/postgres_tests.rs:257-281 | sessions without a common locked row have such a run for every commit order, with the same results |
| Overlap.AnyCommitOrder | crates/lenso-outbound-webhook-plugin/src/postgres_tests.rs:257-281 | every permutation of those sessions leaves the same tables |
| Overlap.AnyOrderSameTables | crates/lenso-outbound-webhook-plugin/src/postgres_tests.rs:257-281 | sessions that all skip each other's locks leave the same tables in every permutation |
| Idempotency.EnqueueAnswers | crates/lenso-outbound-webhook-plugin/src/storage.rs:112-162 | created, existing, conflict and collision in terms of the first-writer-wins map alone |
| Idempotency.CreatedRowHoldsRequest | crates/lenso-outbound-webhook-plugin/src/service.rs:56-72 | a created answer names a row with the request's snapshot, its digest, event and the producer's configuration |
| Idempotency.RowsAreRequested | crates/lenso-outbound-webhook-plugin/src/service.rs:56-72 | over any run every row holds what some enqueue request of the run carried |
| Idempotency.RepeatedRequest | crates/lenso-outbound-webhook-plugin/src/storage.rs:147-162 | a request for a known event is answered Existing, with the row's status, exactly when type, snapshot, endpoint, origin and queue agree, else Conflict |
| Idempotency.StepRefinesMap | crates/lenso-outbound-webhook-plugin/src/service.rs:57-81 | no step changes an entry; only an enqueue of that event adds one |
| Idempotency.CreatedOncePerEvent | crates/lenso-outbound-webhook-plugin/src/storage.rs:92-131 | over any run an event is created at most once and its content stays |
| Idempotency.ReturnedIdNamesEvent | crates/lenso-outbound-webhook-plugin/src/service.rs:57-86 | the returned id names the row of the requested event |
| Idempotency.CollisionErrorIsDigestCollision | crates/lenso-outbound-webhook-plugin/src/storage.rs:144-146 | the collision error means that the id's row holds another event, enqueued under a different identity with the same truncated digest |
| History.HistoryIsKept | crates/lenso-outbound-webhook-plugin/src/storage.rs:319-338 | delivered is absorbing, dead letters leave only into a later cycle, receipts survive |
| History.ReplaysAreNumbered | crates/lenso-outbound-webhook-plugin/src/service.rs:127-133 | successful replays return 1, 2, 3, ... up to 1000000, and the row counts them |
| History.RacedReplay | crates/lenso-outbound-webhook-plugin/src/service.rs:120-134 | a dead letter is unchanged since a caller saw it exactly when nobody replayed it, so one caller per cycle succeeds |
| History.ReplayRestartsDelivery | crates/lenso-outbound-webhook-plugin/src/storage.rs:324-331 | a replayed row is due at once with the original content, no attempts used and all receipts kept |
| Sends.PostsAreBounded | crates/lenso-outbound-webhook-plugin/src/service.rs:191-202 | a delivery is posted at most max_attempts * (replay_count + 1) times |
| EndToEnd.PostsCarryTheSnapshot | crates/lenso-outbound-webhook-plugin/src/service.rs:156-202 | each POST has its own token and the snapshot and endpoint of a request that an earlier event enqueued, and its sender is configured with that endpoint |
| EndToEnd.DeliveredIffPosted | crates/lenso-outbound-webhook-plugin/src/service.rs:145-308 | delivered exactly when a request's snapshot was enqueued and posted under the current token and that POST's 2xx was recorded in the lease |
| Schedule.RetriesAreSpaced | crates/lenso-outbound-webhook-plugin/src/service.rs:271-282 | attempt n + 1 is never granted before the summed delays since the first scheduling |
| Schedule.DelaySumIsBoundedExponential | crates/lenso-outbound-webhook-plugin/src/service.rs:311-316 | under one configuration that sum is the sum of the bounded exponentials |

## Left out

- PostgreSQL itself: connection loss, isolation anomalies, row decoding and indexes. A commit whose answer is lost is a claim followed by a crash.
- Re-evaluation of a row that changes between a statement's snapshot and its lock: transactions are atomic here.
- SHA-256 and HMAC internals: results are stated up to a collision of the truncated digest.
- The HTTP client, secrets, activation and deactivation: an HTTP result is an arbitrary value.
- JSON serialisation, URL parsing and origin derivation: snapshots and endpoints are arbitrary bytes, and the posted URL is the configured text rather than its parsed and re-serialised form.
- Caller allowlists, name and secret-reference syntax, and status-name mappings: single-branch checks.
- The text of outcome codes: they are constructors, so `http_status_503` is a constructor with the number 503.
- Text collation: ids are compared byte by byte.
- `dispatch_delivery` as one method: its halves before and after the POST are separate methods, because other transactions run in between.
- `operator.rs`, `schema.rs`, the capability contracts and generated clients: thin plumbing beside the protocol.
