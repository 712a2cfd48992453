/** The service operations: imperative sequences of store transactions around the worker's decision. */
module Service {
  import opened Types
  import opened Claim
  import opened Transactions
  import opened Backoff
  import opened Dispatch
  import opened Framing
  import opened Protocol
  import opened Store

  datatype ReplayFailure = InvalidReplayId | ReplayNotFound | NotDeadLetter

  datatype InspectFailure = InvalidInspectId | InspectNotFound

  /** What the HTTP client is asked to send. */
  datatype PostRequest = PostRequest(verb: string, url: Bytes, headers: seq<Header>, body: Bytes)

  /** What the HTTP client answers. */
  datatype SendResult =
    | Responded(status: int, body: Bytes)
    | DomainFailed(error: SendError)
    | RuntimeFailed

  /** The answer with its body replaced by the digest that a receipt keeps. */
  function Digested(sha256: Sha256, answer: SendResult): HttpResult {
    match answer
    case Responded(status, body) => Response(status, HexOf(sha256(body)))
    case DomainFailed(error) => DomainError(error)
    case RuntimeFailed => RuntimeFailure
  }

  datatype Dispatched =
    | Idle
    | Refuse(refused: DeliveryRecord)
    | Post(claimed: DeliveryRecord, request: PostRequest)

  datatype DispatchOutcome = DispatchDelivered | DispatchRetryScheduled | DispatchDeadLettered

  datatype DispatchResponse = DispatchResponse(id: DeliveryId, outcome: DispatchOutcome, receipt: Receipt)

  datatype DispatchFailure = DispatchStoreFailure(error: StoreError) | HttpClientFailure

  /** The answer to the dispatch caller once the attempt is recorded. */
  predicate Reports(r: Result<DispatchResponse, DispatchFailure>, id: DeliveryId, d: Decision) {
    match d.status
    case Delivered => r == Ok(DispatchResponse(id, DispatchDelivered, d.receipt))
    case RetryScheduled => r == Ok(DispatchResponse(id, DispatchRetryScheduled, d.receipt))
    case DeadLetter => r == Ok(DispatchResponse(id, DispatchDeadLettered, d.receipt))
    case Delivering => r == Err(HttpClientFailure)
    case Queued => false
  }

  /** The reported outcome is the state the row was left in. */
  predicate TellsStatus(outcome: DispatchOutcome, status: Status) {
    && (outcome == DispatchDelivered <==> status == Delivered)
    && (outcome == DispatchRetryScheduled <==> status == RetryScheduled)
    && (outcome == DispatchDeadLettered <==> status == DeadLetter)
  }

  class Plugin {
    const config: Config
    const sha256: Sha256
    const hmac: (Bytes, Bytes) -> Digest
    const signingKey: Bytes
    const postgres: Postgres

    constructor (config: Config, sha256: Sha256, hmac: (Bytes, Bytes) -> Digest, signingKey: Bytes, postgres: Postgres)
      requires ValidConfig(config)
      ensures this.config == config && this.sha256 == sha256 && this.hmac == hmac
      ensures this.signingKey == signingKey && this.postgres == postgres
    {
      this.config, this.sha256, this.hmac := config, sha256, hmac;
      this.signingKey, this.postgres := signingKey, postgres;
    }

    method EnqueueDelivery(request: EnqueueRequest, appNow: Micros, now: Micros)
      returns (r: Result<EnqueueResponse, EnqueueFailure>)
      requires postgres.Valid()
      modifies postgres
      ensures postgres.Valid()
      ensures (postgres.Contents(), r) == EnqueueOutcome(sha256, old(postgres.Contents()), config, request, appNow, now)
      ensures r == Err(InvalidEvent) <==>
        !(ValidEventName(request.eventId) && ValidEventName(request.eventType)
          && |request.snapshot| <= config.maxPayloadBytes)
      ensures r.Ok? && r.value.created ==>
        && r.value.id in postgres.deliveries && r.value.status == Queued
        && var d := postgres.deliveries[r.value.id];
        && d.content.payload == request.snapshot && d.content.payloadSha256 == HexOf(sha256(request.snapshot))
        && d.content.eventId == request.eventId && d.content.eventType == request.eventType
        && d.content.endpointUrl == config.endpointUrl && d.content.endpointOrigin == config.endpointOrigin
        && d.content.queue == config.queue && d.maxAttempts == config.maxAttempts && d.availableAt == appNow
    {
      if !ValidEventName(request.eventId) || !ValidEventName(request.eventType) {
        return Err(InvalidEvent);
      }
      if |request.snapshot| > config.maxPayloadBytes {
        return Err(InvalidEvent);
      }
      var id := ComputeDeliveryId(sha256, config.endpointUrl, request.eventId);
      var digest := Hex(sha256(request.snapshot));
      var content := Content(request.eventId, request.eventType, config.endpointUrl, config.endpointOrigin,
                             request.snapshot, digest, config.queue);
      var outcome := postgres.InsertOrGet(NewDelivery(id, content, config.maxAttempts, appNow), now);
      match outcome
      case Err(e) => return Err(EnqueueStoreFailure(e));
      case Ok(Created(record)) => return Ok(EnqueueResponse(id, true, record.status));
      case Ok(Existing(record)) => return Ok(EnqueueResponse(id, false, record.status));
      case Ok(Conflict) => return Err(IdempotencyConflict);
    }

    method InspectDelivery(id: DeliveryId) returns (r: Result<DeliveryRecord, InspectFailure>)
      ensures r == Err(InvalidInspectId) <==> !ValidDeliveryId(id)
      ensures r == Err(InspectNotFound) <==> ValidDeliveryId(id) && id !in postgres.deliveries
      ensures r.Ok? ==>
        && r.value.id == id
        && var d := postgres.deliveries[id];
        && r.value.content == d.content && r.value.status == d.status && r.value.attempts == d.attempts
        && r.value.maxAttempts == d.maxAttempts && r.value.replayCount == d.replayCount
      ensures r.Ok? && r.value.lastReceipt.None? ==> forall j :: j in postgres.receipts ==> j.id != id
      ensures r.Ok? && r.value.lastReceipt.Some? ==>
        exists k :: IsLastReceipt(postgres.Contents(), id, k)
          && r.value.lastReceipt.value == (k.attempt, postgres.receipts[k])
    {
      if !ValidDeliveryId(id) {
        return Err(InvalidInspectId);
      }
      var loaded := postgres.Load(id);
      if loaded.None? {
        return Err(InspectNotFound);
      }
      return Ok(loaded.value);
    }

    /** The part of a replay before its transaction: what the caller is refused for. */
    method CheckReplay(id: DeliveryId) returns (refused: Option<ReplayFailure>)
      ensures refused == Some(InvalidReplayId) <==> !ValidDeliveryId(id)
      ensures refused == Some(ReplayNotFound) <==> ValidDeliveryId(id) && id !in postgres.deliveries
      ensures refused == Some(NotDeadLetter) <==>
        ValidDeliveryId(id) && id in postgres.deliveries && postgres.deliveries[id].status != DeadLetter
    {
      if !ValidDeliveryId(id) {
        return Some(InvalidReplayId);
      }
      var existing := postgres.Load(id);
      if existing.None? {
        return Some(ReplayNotFound);
      }
      if existing.value.status != DeadLetter {
        return Some(NotDeadLetter);
      }
      return None;
    }

    /** The replay transaction, which may find the row changed since the check. */
    method CommitReplay(id: DeliveryId, now: Micros) returns (r: Result<int, ReplayFailure>)
      requires postgres.Valid()
      modifies postgres
      ensures postgres.Valid()
      ensures postgres.Contents() == ReplayedDb(old(postgres.Contents()), id, now)
      ensures r == if CanReplay(old(postgres.Contents()), id) then Ok(old(postgres.deliveries)[id].replayCount + 1)
        else Err(NotDeadLetter)
    {
      var replayed := postgres.BeginReplay(id, now);
      if replayed.None? {
        return Err(NotDeadLetter);
      }
      return Ok(replayed.value.replayCount);
    }

    /** Both parts with nothing in between. */
    method ReplayDelivery(id: DeliveryId, now: Micros) returns (r: Result<int, ReplayFailure>)
      requires postgres.Valid()
      modifies postgres
      ensures postgres.Valid()
      ensures postgres.Contents() ==
        if ValidDeliveryId(id) then ReplayedDb(old(postgres.Contents()), id, now) else old(postgres.Contents())
      ensures r.Ok? <==> ValidDeliveryId(id) && CanReplay(old(postgres.Contents()), id)
      ensures r.Ok? ==> r.value == old(postgres.deliveries)[id].replayCount + 1
      ensures r == Err(InvalidReplayId) <==> !ValidDeliveryId(id)
      ensures r == Err(ReplayNotFound) <==> ValidDeliveryId(id) && id !in old(postgres.deliveries)
    {
      var refused := CheckReplay(id);
      if refused.Some? {
        var failure := refused.value;
        assert failure.InvalidReplayId? || failure.ReplayNotFound? || failure.NotDeadLetter?;
        return Err(failure);
      }
      r := CommitReplay(id, now);
    }

    /** Claims at most one row and signs its POST, unless the endpoint has changed since the enqueue. */
    method ClaimForDispatch(skip: set<DeliveryId>, now: Micros, timestamp: Bytes) returns (next: Dispatched)
      requires postgres.Valid()
      modifies postgres
      ensures postgres.Valid()
      ensures postgres.Contents() == ClaimDb(old(postgres.Contents()), ParamsOf(config, skip, now))
      ensures var claimed := ClaimRecord(old(postgres.Contents()), ParamsOf(config, skip, now));
        && (next.Idle? <==> claimed.None?)
        && (next.Refuse? <==>
              claimed.Some? && !(claimed.value.content.endpointUrl == config.endpointUrl
                                 && claimed.value.content.endpointOrigin == config.endpointOrigin))
        && (next.Refuse? ==> next.refused == claimed.value)
        && (next.Post? ==>
              && next.claimed == claimed.value
              && next.request.verb == "POST"
              && next.request.url == claimed.value.content.endpointUrl
              && next.request.body == claimed.value.content.payload
              && next.request.headers == WebhookHeaders(claimed.value.id, claimed.value.content.eventId, timestamp,
                   HexOf(hmac(signingKey, SignedBytes(claimed.value.id, timestamp, claimed.value.content.payload))))
              && SignatureChecks(hmac, signingKey, next.request.headers, next.request.body))
    {
      var claimed := postgres.ClaimDue(ClaimParams(config.queue, config.leaseSeconds, BATCH_LIMIT, now, skip));
      if claimed.None? {
        return Idle;
      }
      var record := claimed.value;
      if record.content.endpointUrl != config.endpointUrl || record.content.endpointOrigin != config.endpointOrigin {
        return Refuse(record);
      }
      var signature := SignPayload(hmac, signingKey, record.id, timestamp, record.content.payload);
      ReceiverAcceptsIffSameMac(hmac, signingKey, record.id, record.content.eventId, timestamp,
                                record.content.payload, record.content.payload);
      return Post(record, PostRequest("POST", config.endpointUrl,
        WebhookHeaders(record.id, record.content.eventId, timestamp, signature), record.content.payload));
    }

    /** Dead-letters a claimed row whose endpoint snapshot is not the configured one. */
    method RefuseDispatch(record: DeliveryRecord, appNow: Micros, now: Micros)
      returns (r: Result<DispatchResponse, DispatchFailure>)
      requires postgres.Valid()
      modifies postgres
      ensures postgres.Valid()
      ensures r.Ok? ==> r == Ok(DispatchResponse(record.id, DispatchDeadLettered,
        Receipt(EndpointConfigurationChanged, None, None, appNow)))
      ensures r.Ok? ==> record.id in postgres.deliveries && TellsStatus(r.value.outcome, postgres.deliveries[record.id].status)
      ensures var d := Decide(record, config, EndpointChanged, appNow);
        var spec := RecordedDb(old(postgres.Contents()), RecordKey(record), d.receipt, d.status, d.next, now);
        if spec.Ok? then postgres.Contents() == spec.value && Reports(r, record.id, d)
        else postgres.Contents() == old(postgres.Contents()) && r == Err(DispatchStoreFailure(spec.error))
    {
      var receipt := Receipt(EndpointConfigurationChanged, None, None, appNow);
      var recorded := postgres.RecordOutcome(RecordKey(record), receipt, DeadLetter, None, now);
      if recorded.Err? {
        return Err(DispatchStoreFailure(recorded.error));
      }
      return Ok(DispatchResponse(record.id, DispatchDeadLettered, receipt));
    }

    /** Turns the answer into a receipt and a next state, and records both under the fence. */
    method FinishDispatch(record: DeliveryRecord, response: SendResult, appNow: Micros, now: Micros)
      returns (r: Result<DispatchResponse, DispatchFailure>)
      requires postgres.Valid()
      modifies postgres
      ensures postgres.Valid()
      ensures r.Ok? ==> r.value.id == record.id && r.value.receipt.occurredAt == appNow && !response.RuntimeFailed?
      ensures r.Ok? && response.Responded? ==>
        && r.value.receipt.httpStatus == Some(response.status)
        && r.value.receipt.responseSha256 == Some(HexOf(sha256(response.body)))
      ensures r.Ok? && response.DomainFailed? ==>
        r.value.receipt.httpStatus == None && r.value.receipt.responseSha256 == None
      ensures r.Ok? ==> record.id in postgres.deliveries && TellsStatus(r.value.outcome, postgres.deliveries[record.id].status)
      ensures r.Ok? ==> (r.value.outcome == DispatchDelivered <==> response.Responded? && 200 <= response.status < 300)
      ensures r.Ok? || r == Err(HttpClientFailure) ==>
        && RecordKey(record) in postgres.receipts
        && (RecordKey(record) !in old(postgres.receipts) ==>
              postgres.receipts[RecordKey(record)] ==
                if r.Ok? then r.value.receipt else Receipt(HttpRuntimeFailure, None, None, appNow))
      ensures var d := Decide(record, config, Answer(Digested(sha256, response)), appNow);
        var spec := RecordedDb(old(postgres.Contents()), RecordKey(record), d.receipt, d.status, d.next, now);
        if spec.Ok? then postgres.Contents() == spec.value && Reports(r, record.id, d)
        else postgres.Contents() == old(postgres.Contents()) && r == Err(DispatchStoreFailure(spec.error))
    {
      var receipt: Receipt;
      var failure: Option<Failure>;
      match response
      {
        case Responded(status, body) =>
          var digest := Hex(sha256(body));
          if 200 <= status < 300 {
            receipt, failure := Receipt(DeliveredOutcome, Some(status), Some(digest), appNow), None;
          } else {
            var f := HttpStatusFailure(status);
            receipt, failure := Receipt(f.code, Some(status), Some(digest), appNow), Some(f);
          }
        case DomainFailed(error) =>
          var f := HttpDomainFailure(error);
          receipt, failure := Receipt(f.code, None, None, appNow), Some(f);
        case RuntimeFailed =>
          receipt := Receipt(HttpRuntimeFailure, None, None, appNow);
          var kept := postgres.RecordOutcome(RecordKey(record), receipt, Delivering, None, now);
          if kept.Err? {
            return Err(DispatchStoreFailure(kept.error));
          }
          return Err(HttpClientFailure);
      }
      var status, outcome, next := Delivered, DispatchDelivered, None;
      if failure.Some? {
        if failure.value.retryable && record.attempts < record.maxAttempts {
          var delay := RetryDelaySeconds(record.attempts, config.retryBaseSeconds, config.retryMaxSeconds);
          status, outcome, next := RetryScheduled, DispatchRetryScheduled, Some(appNow + delay * SECOND);
        } else {
          status, outcome, next := DeadLetter, DispatchDeadLettered, None;
        }
      }
      assert Decide(record, config, Answer(Digested(sha256, response)), appNow) == Decision(receipt, status, next);
      var recorded := postgres.RecordOutcome(RecordKey(record), receipt, status, next, now);
      if recorded.Err? {
        return Err(DispatchStoreFailure(recorded.error));
      }
      return Ok(DispatchResponse(record.id, outcome, receipt));
    }
  }
}
