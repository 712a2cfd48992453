/** Values shared by the whole model: the two tables, their columns and their CHECK constraints. */
module Types {
  datatype Option<+T> = None | Some(value: T)

  datatype Result<+T, +E> = Ok(value: T) | Err(error: E)

  type byte = b: int | 0 <= b < 256
  type Bytes = seq<byte>

  /** SHA-256 yields 32 bytes; the function itself is a parameter of the model. */
  type Digest = d: Bytes | |d| == 32 witness seq(32, _ => 0)

  /** PostgreSQL timestamps have microsecond resolution. */
  type Micros = int
  const SECOND: Micros := 1_000_000

  type DeliveryId = Bytes

  datatype Status = Queued | Delivering | RetryScheduled | Delivered | DeadLetter

  /** The columns that no transaction ever updates and that an enqueue compares. */
  datatype Content = Content(
    eventId: Bytes,
    eventType: Bytes,
    endpointUrl: Bytes,
    endpointOrigin: Bytes,
    payload: Bytes,
    payloadSha256: Bytes,
    queue: Bytes)

  /** One row of webhook_deliveries; its primary key is the map key in Db. */
  datatype Delivery = Delivery(
    content: Content,
    maxAttempts: int,
    createdAt: Micros,
    status: Status,
    availableAt: Micros,
    lease: Option<Micros>,
    attempts: int,
    replayCount: int,
    updatedAt: Micros)

  /** Primary key of webhook_delivery_attempts; also the token that fences a worker. */
  datatype AttemptKey = AttemptKey(id: DeliveryId, replayCount: int, attempt: int)

  datatype Outcome =
    | DeliveredOutcome
    | HttpStatus(code: int)
    | HttpTimeout
    | HttpTransportFailure
    | HttpResponseTooLarge
    | HttpDestinationNotAllowed
    | HttpInvalidRequest
    | HttpRequestTooLarge
    | HttpUnknownFailure
    | HttpRuntimeFailure
    | EndpointConfigurationChanged
    | LeaseExpired

  datatype Receipt = Receipt(
    outcome: Outcome,
    httpStatus: Option<int>,
    responseSha256: Option<Bytes>,
    occurredAt: Micros)

  datatype Db = Db(
    deliveries: map<DeliveryId, Delivery>,
    receipts: map<AttemptKey, Receipt>)

  const MAX_REPLAYS := 1_000_000

  function CurrentKey(id: DeliveryId, d: Delivery): AttemptKey {
    AttemptKey(id, d.replayCount, d.attempts)
  }

  /** The CHECK constraints on webhook_deliveries. */
  predicate DeliveryCheck(d: Delivery) {
    && 0 <= d.attempts <= d.maxAttempts && 1 <= d.maxAttempts <= 100
    && 0 <= d.replayCount <= MAX_REPLAYS
    && (d.status == Delivering <==> d.lease.Some?)
  }

  /** The CHECK constraints on webhook_delivery_attempts. */
  predicate ReceiptCheck(k: AttemptKey, r: Receipt) {
    && 1 <= k.attempt <= 100
    && (r.httpStatus.Some? ==> 100 <= r.httpStatus.value <= 599)
  }

  /** Everything the migration declares: CHECKs, the UNIQUE event id and the foreign key. */
  ghost predicate SchemaValid(db: Db) {
    && (forall id :: id in db.deliveries ==> DeliveryCheck(db.deliveries[id]))
    && (forall k :: k in db.receipts ==> ReceiptCheck(k, db.receipts[k]) && k.id in db.deliveries)
    && (forall a, b | a in db.deliveries && b in db.deliveries ::
          db.deliveries[a].content.eventId == db.deliveries[b].content.eventId ==> a == b)
  }

  /** A leased row has been claimed at least once, so its attempt number passes ReceiptCheck. */
  ghost predicate LeasedRowsStarted(db: Db) {
    forall id | id in db.deliveries ::
      db.deliveries[id].status == Delivering ==> 1 <= db.deliveries[id].attempts
  }

  ghost predicate StoreValid(db: Db) {
    SchemaValid(db) && LeasedRowsStarted(db)
  }

  /** The row as a transaction returns it to its caller. */
  datatype DeliveryRecord = DeliveryRecord(
    id: DeliveryId,
    content: Content,
    status: Status,
    attempts: int,
    maxAttempts: int,
    replayCount: int,
    lastReceipt: Option<(int, Receipt)>)

  function ToRecord(id: DeliveryId, d: Delivery): DeliveryRecord {
    DeliveryRecord(id, d.content, d.status, d.attempts, d.maxAttempts, d.replayCount, None)
  }

  function RecordKey(r: DeliveryRecord): AttemptKey {
    AttemptKey(r.id, r.replayCount, r.attempts)
  }

  /** Lexicographic order of tokens of one delivery. */
  predicate TokenLess(a: AttemptKey, b: AttemptKey) {
    a.id == b.id && (a.replayCount < b.replayCount || (a.replayCount == b.replayCount && a.attempt < b.attempt))
  }

  predicate TokenAtMost(a: AttemptKey, b: AttemptKey) {
    a == b || TokenLess(a, b)
  }
}
