/** What the other three transactions mean: functions of the tables they start from. */
module Transactions {
  import opened Types

  datatype StoreError = CheckViolation | ForeignKeyViolation | IdentityCollision | FenceRejected

  datatype NewDelivery = NewDelivery(id: DeliveryId, content: Content, maxAttempts: int, availableAt: Micros)

  datatype InsertOutcome = Created(created: DeliveryRecord) | Existing(existing: DeliveryRecord) | Conflict

  function QueuedRow(delivery: NewDelivery, now: Micros): Delivery {
    Delivery(delivery.content, delivery.maxAttempts, now, Queued, delivery.availableAt, None, 0, 0, now)
  }

  /** `id` is the row of the event; the UNIQUE constraint leaves at most one. */
  ghost predicate IsRowOfEvent(db: Db, eventId: Bytes, id: DeliveryId) {
    id in db.deliveries && db.deliveries[id].content.eventId == eventId
  }

  ghost predicate EventKnown(db: Db, eventId: Bytes) {
    exists id :: IsRowOfEvent(db, eventId, id)
  }

  ghost function RowOfEvent(db: Db, eventId: Bytes): (id: DeliveryId)
    requires EventKnown(db, eventId)
    ensures IsRowOfEvent(db, eventId, id)
  {
    var id :| IsRowOfEvent(db, eventId, id);
    id
  }

  /** CHECK constraints run before ON CONFLICT DO NOTHING looks for a conflict. */
  ghost function Inserted(db: Db, delivery: NewDelivery, now: Micros): Result<(Db, InsertOutcome), StoreError> {
    if !DeliveryCheck(QueuedRow(delivery, now)) then Err(CheckViolation)
    else if delivery.id !in db.deliveries && !EventKnown(db, delivery.content.eventId) then
      Ok((db.(deliveries := db.deliveries[delivery.id := QueuedRow(delivery, now)]),
          Created(ToRecord(delivery.id, QueuedRow(delivery, now)))))
    else if !EventKnown(db, delivery.content.eventId) then Err(IdentityCollision)
    else
      var id := RowOfEvent(db, delivery.content.eventId);
      if db.deliveries[id].content == delivery.content
      then Ok((db, Existing(ToRecord(id, db.deliveries[id]))))
      else Ok((db, Conflict))
  }

  /** The WHERE clause that fences a worker to its own live lease. */
  predicate Fence(d: Delivery, key: AttemptKey, now: Micros) {
    && d.replayCount == key.replayCount && d.attempts == key.attempt
    && d.status == Delivering && d.lease.Some? && d.lease.value > now
  }

  function RowAfterRecord(d: Delivery, status: Status, next: Option<Micros>, now: Micros): Delivery {
    d.(status := status,
       availableAt := if next.Some? then next.value else d.availableAt,
       lease := if status == Delivering then d.lease else None,
       updatedAt := now)
  }

  /** Insert-or-ignore the receipt, then the fenced update; any failure rolls both back. */
  function RecordedDb(db: Db, key: AttemptKey, receipt: Receipt, status: Status, next: Option<Micros>, now: Micros)
    : Result<Db, StoreError>
  {
    if !ReceiptCheck(key, receipt) then Err(CheckViolation)
    else if key !in db.receipts && key.id !in db.deliveries then Err(ForeignKeyViolation)
    else if key.id !in db.deliveries || !Fence(db.deliveries[key.id], key, now) then Err(FenceRejected)
    else
      Ok(Db(db.deliveries[key.id := RowAfterRecord(db.deliveries[key.id], status, next, now)],
            if key in db.receipts then db.receipts else db.receipts[key := receipt]))
  }

  predicate CanReplay(db: Db, id: DeliveryId) {
    id in db.deliveries && db.deliveries[id].status == DeadLetter && db.deliveries[id].replayCount < MAX_REPLAYS
  }

  function Requeue(d: Delivery, now: Micros): Delivery {
    d.(replayCount := d.replayCount + 1, status := Queued, attempts := 0,
       availableAt := now, lease := None, updatedAt := now)
  }

  function ReplayedDb(db: Db, id: DeliveryId, now: Micros): Db {
    if CanReplay(db, id) then db.(deliveries := db.deliveries[id := Requeue(db.deliveries[id], now)]) else db
  }

  /** `ORDER BY replay_count DESC, attempt DESC LIMIT 1`, stated by its ordering. */
  ghost predicate IsLastReceipt(db: Db, id: DeliveryId, k: AttemptKey) {
    k in db.receipts && k.id == id && forall j :: j in db.receipts && j.id == id ==> TokenAtMost(j, k)
  }

  lemma InsertKeepsStoreValid(db: Db, delivery: NewDelivery, now: Micros)
    requires StoreValid(db) && Inserted(db, delivery, now).Ok?
    ensures StoreValid(Inserted(db, delivery, now).value.0)
  {
    if delivery.id !in db.deliveries && !EventKnown(db, delivery.content.eventId) {
      forall id | id in db.deliveries ensures db.deliveries[id].content.eventId != delivery.content.eventId {
        assert !IsRowOfEvent(db, delivery.content.eventId, id);
      }
    }
  }

  lemma RecordKeepsStoreValid(db: Db, key: AttemptKey, receipt: Receipt, status: Status, next: Option<Micros>,
    now: Micros)
    requires StoreValid(db) && RecordedDb(db, key, receipt, status, next, now).Ok?
    ensures StoreValid(RecordedDb(db, key, receipt, status, next, now).value)
  {
  }

  lemma ReplayKeepsStoreValid(db: Db, id: DeliveryId, now: Micros)
    requires StoreValid(db)
    ensures StoreValid(ReplayedDb(db, id, now))
  {
  }
}
