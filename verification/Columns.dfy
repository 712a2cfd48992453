/** Each transaction read on the columns of the tables, beside the functions that define it. */
module Columns {
  import opened Types
  import opened Order
  import opened Claim
  import opened Transactions
  import opened Dispatch
  import opened Protocol

  // ---- The claim ----

  /** The unlocked leases of the queue that ended by p.now, and before the lease of `id` in the order of
      lease_expires_at, delivery_id. */
  function EndedBefore(db: Db, p: ClaimParams, id: DeliveryId): set<DeliveryId>
    requires id in db.deliveries && db.deliveries[id].lease.Some?
  {
    var until := db.deliveries[id].lease.value;
    set j | j in db.deliveries && j !in p.skip
      && db.deliveries[j].content.queue == p.queue && db.deliveries[j].status == Delivering
      && db.deliveries[j].lease.Some? && db.deliveries[j].lease.value <= p.now
      && (db.deliveries[j].lease.value < until || (db.deliveries[j].lease.value == until && BytesLess(j, id)))
  }

  /** One of the first `limit` ended leases of the queue by lease_expires_at and delivery_id. */
  predicate IsFirstEnded(db: Db, p: ClaimParams, id: DeliveryId) {
    && id in db.deliveries && id !in p.skip
    && var d := db.deliveries[id];
    && d.content.queue == p.queue && d.status == Delivering
    && d.lease.Some? && d.lease.value <= p.now && |EndedBefore(db, p, id)| < p.limit
  }

  /** Those are the batch. */
  lemma BatchIsFirstEnded(db: Db, p: ClaimParams, id: DeliveryId)
    ensures id in Batch(db, p) <==> IsFirstEnded(db, p, id)
  {
    var expired := ExpiredIds(db, p);
    if id in expired {
      FirstByRank(expired, LeaseRanks(db), p.limit, Batch(db, p), id);
      assert Before(expired, LeaseRanks(db), id) == EndedBefore(db, p, id);
    }
  }

  /** A dispatch maintains the configured queue, 64 rows at a time. */
  lemma DispatchBatch(db: Db, c: Config, skip: set<DeliveryId>, now: Micros, id: DeliveryId)
    requires id in db.deliveries
    ensures var d, p := db.deliveries[id], ParamsOf(c, skip, now);
      id in Batch(db, p) <==>
        && id !in skip && d.content.queue == c.queue && d.status == Delivering
        && d.lease.Some? && d.lease.value <= now && |EndedBefore(db, p, id)| < 64
  {
    BatchIsFirstEnded(db, ParamsOf(c, skip, now), id);
  }

  /** A row that waits in the queue past its available_at is leased, unless one before it in the order of
      available_at, created_at, delivery_id is. */
  lemma WaitingRowIsClaimed(db: Db, p: ClaimParams, id: DeliveryId)
    requires id in db.deliveries && id !in p.skip
    requires var d := db.deliveries[id];
      && d.content.queue == p.queue && (d.status == Queued || d.status == RetryScheduled)
      && d.attempts < d.maxAttempts && d.availableAt <= p.now
    ensures ClaimRecord(db, p).Some? && ClaimRecord(db, p).value.id in db.deliveries
    ensures var x := ClaimRecord(db, p).value.id;
      var d, e := db.deliveries[id], db.deliveries[x];
      || e.availableAt < d.availableAt
      || (e.availableAt == d.availableAt && e.createdAt < d.createdAt)
      || (e.availableAt == d.availableAt && e.createdAt == d.createdAt && (x == id || BytesLess(x, id)))
  {
    assert id in EligibleIds(db, p, Batch(db, p));
  }

  /** So is a row of the batch that has attempts left. */
  lemma EndedRowIsClaimed(db: Db, p: ClaimParams, id: DeliveryId)
    requires id in db.deliveries && id !in p.skip
    requires IsFirstEnded(db, p, id) && db.deliveries[id].attempts < db.deliveries[id].maxAttempts
    ensures ClaimRecord(db, p).Some? && ClaimRecord(db, p).value.id in db.deliveries
    ensures var x := ClaimRecord(db, p).value.id;
      var d, e := db.deliveries[id], db.deliveries[x];
      || e.availableAt < d.availableAt
      || (e.availableAt == d.availableAt && e.createdAt < d.createdAt)
      || (e.availableAt == d.availableAt && e.createdAt == d.createdAt && (x == id || BytesLess(x, id)))
  {
    BatchIsFirstEnded(db, p, id);
    assert id in EligibleIds(db, p, Batch(db, p));
  }

  /** Only such rows are leased. */
  lemma ClaimedRow(db: Db, p: ClaimParams)
    requires ClaimRecord(db, p).Some?
    ensures var r := ClaimRecord(db, p).value;
      && r.id in db.deliveries && r.id !in p.skip
      && var d := db.deliveries[r.id];
      && d.content.queue == p.queue && d.attempts < d.maxAttempts
      && (|| ((d.status == Queued || d.status == RetryScheduled) && d.availableAt <= p.now)
          || IsFirstEnded(db, p, r.id))
  {
    var id := Candidate(db, p).value;
    assert id in EligibleIds(db, p, Batch(db, p));
    BatchIsFirstEnded(db, p, id);
  }

  /** The returned record is the row with one more attempt, leased for leaseSeconds from now and otherwise as it was. */
  lemma LeasedRow(db: Db, p: ClaimParams)
    requires ClaimRecord(db, p).Some?
    ensures var r := ClaimRecord(db, p).value;
      && r.id in db.deliveries && r.id in ClaimDb(db, p).deliveries
      && var d, e := db.deliveries[r.id], ClaimDb(db, p).deliveries[r.id];
      && e.status == Delivering && e.attempts == d.attempts + 1 && e.updatedAt == p.now
      && e.lease == Some(p.now + p.leaseSeconds * 1_000_000)
      && e.content == d.content && e.maxAttempts == d.maxAttempts && e.createdAt == d.createdAt
      && e.availableAt == d.availableAt && e.replayCount == d.replayCount
      && r.content == e.content && r.status == Delivering && r.attempts == e.attempts
      && r.maxAttempts == e.maxAttempts && r.replayCount == e.replayCount && r.lastReceipt == None
  {
    assert Candidate(db, p).value in EligibleIds(db, p, Batch(db, p));
  }

  lemma UnclaimedRowOfBatch(db: Db, p: ClaimParams, id: DeliveryId)
    requires id in db.deliveries && (ClaimRecord(db, p).Some? ==> ClaimRecord(db, p).value.id != id)
    ensures ClaimDb(db, p).deliveries.Keys == db.deliveries.Keys
    ensures var d, e := db.deliveries[id], ClaimDb(db, p).deliveries[id];
      e == if id in Batch(db, p) && IsExhausted(d) then Retire(d, p.now) else d
  {
  }

  /** Of the other rows, the first ended ones out of attempts become dead letters, and nothing else changes. */
  lemma UnclaimedRow(db: Db, p: ClaimParams, id: DeliveryId)
    requires id in db.deliveries && (ClaimRecord(db, p).Some? ==> ClaimRecord(db, p).value.id != id)
    ensures ClaimDb(db, p).deliveries.Keys == db.deliveries.Keys
    ensures var d, e := db.deliveries[id], ClaimDb(db, p).deliveries[id];
      if IsFirstEnded(db, p, id) && d.attempts >= d.maxAttempts then
        && e.status == DeadLetter && e.lease == None && e.updatedAt == p.now
        && e.content == d.content && e.maxAttempts == d.maxAttempts && e.createdAt == d.createdAt
        && e.availableAt == d.availableAt && e.attempts == d.attempts && e.replayCount == d.replayCount
      else e == d
  {
    BatchIsFirstEnded(db, p, id);
    UnclaimedRowOfBatch(db, p, id);
  }

  /** Each of the first ended rows has a receipt for its current attempt: the one it had, or that of an ended lease. */
  lemma ClaimReceipt(db: Db, p: ClaimParams, k: AttemptKey)
    ensures var after := ClaimDb(db, p).receipts;
      var ended := IsFirstEnded(db, p, k.id)
        && k.replayCount == db.deliveries[k.id].replayCount && k.attempt == db.deliveries[k.id].attempts;
      && (k in after <==> k in db.receipts || ended)
      && (k in db.receipts ==> after[k] == db.receipts[k])
      && (k in after && k !in db.receipts ==> after[k] == Receipt(LeaseExpired, None, None, p.now))
  {
    BatchIsFirstEnded(db, p, k.id);
  }

  // ---- The record ----

  /** A storable outcome is accepted exactly under the row's own live lease. The row then has the recorded status; a
      row that stays leased keeps its lease, and one without a new time keeps its time. */
  lemma AcceptedRecord(db: Db, k: AttemptKey, receipt: Receipt, status: Status, next: Option<Micros>, now: Micros)
    requires 1 <= k.attempt <= 100 && (receipt.httpStatus.Some? ==> 100 <= receipt.httpStatus.value <= 599)
    ensures var after := RecordedDb(db, k, receipt, status, next, now);
      && (after.Ok? <==>
            && k.id in db.deliveries
            && var d := db.deliveries[k.id];
            && d.replayCount == k.replayCount && d.attempts == k.attempt
            && d.status == Delivering && d.lease.Some? && now < d.lease.value)
      && (after.Ok? ==>
            && after.value.deliveries.Keys == db.deliveries.Keys
            && (forall j | j in db.deliveries && j != k.id :: after.value.deliveries[j] == db.deliveries[j])
            && var d, e := db.deliveries[k.id], after.value.deliveries[k.id];
            && e.status == status && e.updatedAt == now
            && e.lease == (if status == Delivering then d.lease else None)
            && e.availableAt == (if next.Some? then next.value else d.availableAt)
            && e.content == d.content && e.maxAttempts == d.maxAttempts && e.createdAt == d.createdAt
            && e.attempts == d.attempts && e.replayCount == d.replayCount)
      && (after.Ok? ==>
            && after.value.receipts.Keys == db.receipts.Keys + {k}
            && after.value.receipts[k] == (if k in db.receipts then db.receipts[k] else receipt)
            && (forall j | j in db.receipts && j != k :: after.value.receipts[j] == db.receipts[j]))
  {
  }

  /** Which error a rejected outcome gets. */
  lemma RejectedRecord(db: Db, k: AttemptKey, receipt: Receipt, status: Status, next: Option<Micros>, now: Micros)
    requires RecordedDb(db, k, receipt, status, next, now).Err?
    ensures var error := RecordedDb(db, k, receipt, status, next, now).error;
      var storable := 1 <= k.attempt <= 100 && (receipt.httpStatus.Some? ==> 100 <= receipt.httpStatus.value <= 599);
      && (error == CheckViolation <==> !storable)
      && (error == ForeignKeyViolation <==> storable && k !in db.receipts && k.id !in db.deliveries)
  {
  }

  // ---- The insert ----

  /** A new row, from the columns it is inserted with and the schema's defaults. */
  lemma InsertedRow(db: Db, n: NewDelivery, now: Micros)
    ensures Inserted(db, n, now) == Err(CheckViolation) <==> !(1 <= n.maxAttempts <= 100)
    ensures Inserted(db, n, now).Ok? && Inserted(db, n, now).value.1.Created? <==>
      && 1 <= n.maxAttempts <= 100 && n.id !in db.deliveries
      && forall j | j in db.deliveries :: db.deliveries[j].content.eventId != n.content.eventId
    ensures Inserted(db, n, now).Ok? && Inserted(db, n, now).value.1.Created? ==>
      var (after, answer) := Inserted(db, n, now).value;
      && after.receipts == db.receipts && after.deliveries.Keys == db.deliveries.Keys + {n.id}
      && (forall j | j in db.deliveries :: after.deliveries[j] == db.deliveries[j])
      && var d := after.deliveries[n.id];
      && d.content == n.content && d.maxAttempts == n.maxAttempts && d.availableAt == n.availableAt
      && d.status == Queued && d.attempts == 0 && d.replayCount == 0 && d.lease == None
      && d.createdAt == now && d.updatedAt == now
      && answer.created.id == n.id && answer.created.status == Queued
  {
    if !EventKnown(db, n.content.eventId) {
      forall j | j in db.deliveries ensures db.deliveries[j].content.eventId != n.content.eventId {
        assert !IsRowOfEvent(db, n.content.eventId, j);
      }
    }
  }

  // ---- The replay ----

  /** A replay changes exactly a dead letter below the limit: to the next cycle, queued for now, without attempts. */
  lemma ReplayedRow(db: Db, id: DeliveryId, now: Micros)
    requires id in db.deliveries
    ensures var d, after := db.deliveries[id], ReplayedDb(db, id, now);
      && after.receipts == db.receipts && after.deliveries.Keys == db.deliveries.Keys
      && (forall j | j in db.deliveries && j != id :: after.deliveries[j] == db.deliveries[j])
      && (CanReplay(db, id) <==> d.status == DeadLetter && d.replayCount < 1_000_000)
      && var e := after.deliveries[id];
      if d.status == DeadLetter && d.replayCount < 1_000_000 then
        && e.status == Queued && e.replayCount == d.replayCount + 1 && e.attempts == 0
        && e.availableAt == now && e.lease == None && e.updatedAt == now
        && e.content == d.content && e.maxAttempts == d.maxAttempts && e.createdAt == d.createdAt
      else e == d
  {
  }

  // ---- Reading ----

  /** The last receipt is the greatest by replay_count, then attempt. */
  lemma LastReceiptOrder(db: Db, id: DeliveryId, k: AttemptKey)
    ensures IsLastReceipt(db, id, k) <==>
      && k in db.receipts && k.id == id
      && forall j :: j in db.receipts && j.id == id ==>
        j.replayCount < k.replayCount || (j.replayCount == k.replayCount && j.attempt <= k.attempt)
  {
    if forall j :: j in db.receipts && j.id == id ==>
      j.replayCount < k.replayCount || (j.replayCount == k.replayCount && j.attempt <= k.attempt)
    {
      forall j | j in db.receipts && j.id == id && k.id == id ensures TokenAtMost(j, k) {
        assert j == AttemptKey(id, j.replayCount, j.attempt);
      }
    }
  }
}
