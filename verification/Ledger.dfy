/** The receipt ledger has no gap: which receipts exist follows from the delivery row. */
module Ledger {
  import opened Types
  import opened Claim
  import opened Transactions

  /** Row shapes that hold between transactions beyond the CHECK constraints. */
  predicate Shaped(d: Delivery) {
    match d.status
    case Queued => d.attempts == 0
    case RetryScheduled => 1 <= d.attempts < d.maxAttempts
    case Delivering => 1 <= d.attempts
    case Delivered => 1 <= d.attempts
    case DeadLetter => 1 <= d.attempts
  }

  /** A cycle's receipts are exactly attempts 1..n. */
  ghost predicate ExactlyUpTo(db: Db, id: DeliveryId, replay: int, n: int) {
    forall a: int :: AttemptKey(id, replay, a) in db.receipts <==> 1 <= a <= n
  }

  ghost predicate FinishedCycle(db: Db, id: DeliveryId, replay: int, maxAttempts: int) {
    exists n :: 1 <= n <= maxAttempts && ExactlyUpTo(db, id, replay, n)
  }

  ghost predicate CurrentCycle(db: Db, id: DeliveryId, d: Delivery) {
    ExactlyUpTo(db, id, d.replayCount, d.attempts)
    || (d.status == Delivering && ExactlyUpTo(db, id, d.replayCount, d.attempts - 1))
  }

  ghost predicate RowLedger(db: Db, id: DeliveryId)
    requires id in db.deliveries
  {
    var d := db.deliveries[id];
    && (forall replay :: 0 <= replay < d.replayCount ==> FinishedCycle(db, id, replay, d.maxAttempts))
    && CurrentCycle(db, id, d)
    && (forall k :: k in db.receipts && k.id == id ==> 0 <= k.replayCount <= d.replayCount)
  }

  ghost predicate LedgerInv(db: Db) {
    && StoreValid(db)
    && (forall id :: id in db.deliveries ==> Shaped(db.deliveries[id]))
    && (forall id :: id in db.deliveries ==> RowLedger(db, id))
  }

  /** Two tables hold the same receipts of one delivery. */
  ghost predicate SameReceiptsOf(a: Db, b: Db, id: DeliveryId) {
    forall k: AttemptKey :: k.id == id ==> (k in a.receipts <==> k in b.receipts)
  }

  lemma FinishedCyclesStay(a: Db, b: Db, id: DeliveryId, replay: int, maxAttempts: int)
    requires FinishedCycle(a, id, replay, maxAttempts)
    requires forall n :: AttemptKey(id, replay, n) in a.receipts <==> AttemptKey(id, replay, n) in b.receipts
    ensures FinishedCycle(b, id, replay, maxAttempts)
  {
    var n :| 1 <= n <= maxAttempts && ExactlyUpTo(a, id, replay, n);
    assert ExactlyUpTo(b, id, replay, n);
  }

  /** A row that keeps its token, and whose only new receipt is for that token, keeps its ledger. */
  lemma RowLedgerStays(a: Db, b: Db, id: DeliveryId)
    requires id in a.deliveries && id in b.deliveries && RowLedger(a, id)
    requires var d, e := a.deliveries[id], b.deliveries[id];
      && 0 <= d.replayCount && 1 <= d.attempts
      && e.replayCount == d.replayCount && e.maxAttempts == d.maxAttempts
      && (forall k: AttemptKey :: k.id == id ==>
            (k in b.receipts <==> k in a.receipts || k == CurrentKey(id, d)))
      && (e.attempts == d.attempts || (e.attempts == d.attempts + 1 && e.status == Delivering))
    ensures RowLedger(b, id)
  {
    var d := a.deliveries[id];
    forall replay | 0 <= replay < d.replayCount ensures FinishedCycle(b, id, replay, d.maxAttempts) {
      FinishedCyclesStay(a, b, id, replay, d.maxAttempts);
    }
    assert ExactlyUpTo(b, id, d.replayCount, d.attempts);
  }

  lemma RowLedgerUntouched(a: Db, b: Db, id: DeliveryId)
    requires id in a.deliveries && id in b.deliveries && RowLedger(a, id) && SameReceiptsOf(a, b, id)
    requires var d, e := a.deliveries[id], b.deliveries[id];
      && e.replayCount == d.replayCount && e.maxAttempts == d.maxAttempts
      && (e == d || (e.attempts == d.attempts + 1 && e.status == Delivering && d.status != Delivering))
    ensures RowLedger(b, id)
  {
    var d := a.deliveries[id];
    forall replay | 0 <= replay < d.replayCount ensures FinishedCycle(b, id, replay, d.maxAttempts) {
      FinishedCyclesStay(a, b, id, replay, d.maxAttempts);
    }
    if ExactlyUpTo(a, id, d.replayCount, d.attempts) {
      assert ExactlyUpTo(b, id, d.replayCount, d.attempts);
    } else {
      assert ExactlyUpTo(b, id, d.replayCount, d.attempts - 1);
    }
  }

  lemma ApplyKeepsRowLedger(db: Db, p: ClaimParams, batch: set<DeliveryId>, c: Option<DeliveryId>, id: DeliveryId)
    requires LedgerInv(db) && Selected(db, p, batch, c) && id in db.deliveries
    ensures Shaped(ApplyClaim(db, p, batch, c).deliveries[id])
    ensures RowLedger(ApplyClaim(db, p, batch, c), id)
  {
    var after := ApplyClaim(db, p, batch, c);
    var d := db.deliveries[id];
    if id in batch {
      assert IsExpired(d, p.queue, p.now);
      RowLedgerStays(db, after, id);
    } else {
      RowLedgerUntouched(db, after, id);
    }
  }

  lemma ClaimKeepsLedger(db: Db, p: ClaimParams)
    requires LedgerInv(db)
    ensures LedgerInv(ClaimDb(db, p))
  {
    ClaimKeepsStoreValid(db, p);
    ClaimIsSelected(db, p);
    forall id | id in db.deliveries {
      ApplyKeepsRowLedger(db, p, Batch(db, p), Candidate(db, p), id);
    }
  }

  lemma NewRowLedger(db: Db, after: Db, id: DeliveryId)
    requires SchemaValid(db) && id !in db.deliveries && id in after.deliveries && after.receipts == db.receipts
    requires after.deliveries[id].replayCount == 0 && after.deliveries[id].attempts == 0
    ensures RowLedger(after, id)
  {
    assert ExactlyUpTo(after, id, 0, 0);
  }

  lemma InsertKeepsLedger(db: Db, delivery: NewDelivery, now: Micros)
    requires LedgerInv(db) && Inserted(db, delivery, now).Ok?
    ensures LedgerInv(Inserted(db, delivery, now).value.0)
  {
    InsertKeepsStoreValid(db, delivery, now);
    var after := Inserted(db, delivery, now).value.0;
    if after != db {
      forall id | id in after.deliveries ensures RowLedger(after, id) && Shaped(after.deliveries[id]) {
        if id in db.deliveries { RowLedgerUntouched(db, after, id); } else { NewRowLedger(db, after, id); }
      }
    }
  }

  /** The statuses a service ever records, with the attempts it records them under. */
  predicate RecordableStatus(d: Delivery, status: Status) {
    status != Queued && (status == RetryScheduled ==> d.attempts < d.maxAttempts)
  }

  lemma RecordKeepsLedger(db: Db, key: AttemptKey, receipt: Receipt, status: Status, next: Option<Micros>, now: Micros)
    requires LedgerInv(db) && RecordedDb(db, key, receipt, status, next, now).Ok?
    requires RecordableStatus(db.deliveries[key.id], status)
    ensures LedgerInv(RecordedDb(db, key, receipt, status, next, now).value)
  {
    RecordKeepsStoreValid(db, key, receipt, status, next, now);
    var after := RecordedDb(db, key, receipt, status, next, now).value;
    forall id | id in after.deliveries ensures RowLedger(after, id) && Shaped(after.deliveries[id]) {
      if id == key.id {
        RowLedgerStays(db, after, id);
      } else {
        RowLedgerUntouched(db, after, id);
      }
    }
  }

  lemma ReplayKeepsLedger(db: Db, id: DeliveryId, now: Micros)
    requires LedgerInv(db)
    ensures LedgerInv(ReplayedDb(db, id, now))
  {
    ReplayKeepsStoreValid(db, id, now);
    var after := ReplayedDb(db, id, now);
    forall i | i in after.deliveries ensures RowLedger(after, i) && Shaped(after.deliveries[i]) {
      var d := db.deliveries[i];
      if CanReplay(db, id) && i == id {
        assert ExactlyUpTo(db, i, d.replayCount, d.attempts);
        assert FinishedCycle(db, i, d.replayCount, d.maxAttempts);
        forall replay | 0 <= replay < d.replayCount + 1 ensures FinishedCycle(after, i, replay, d.maxAttempts) {
          FinishedCyclesStay(db, after, i, replay, d.maxAttempts);
        }
        assert ExactlyUpTo(after, i, d.replayCount + 1, 0);
      } else {
        RowLedgerUntouched(db, after, i);
      }
    }
  }

  /** The newest receipt is the one that closed the cycle. */
  ghost predicate ShowsEndOfCycle(db: Db, id: DeliveryId, replay: int, maxAttempts: int) {
    exists n :: 1 <= n <= maxAttempts && ExactlyUpTo(db, id, replay, n) && ShowsOnly(db, id, AttemptKey(id, replay, n))
  }

  ghost predicate ShowsOnly(db: Db, id: DeliveryId, top: AttemptKey) {
    forall k :: IsLastReceipt(db, id, k) <==> k == top
  }

  lemma LastReceiptAt(db: Db, id: DeliveryId, top: AttemptKey)
    requires top in db.receipts && top.id == id
    requires forall j :: j in db.receipts && j.id == id ==> TokenAtMost(j, top)
    ensures ShowsOnly(db, id, top)
  {
    assert IsLastReceipt(db, id, top);
    forall k | IsLastReceipt(db, id, k) ensures k == top {
      assert TokenAtMost(k, top) && TokenAtMost(top, k);
    }
  }

  /** While the current cycle has no receipt, the newest one closes the cycle before; in the first cycle there is none. */
  lemma LastReceiptOfEmptyCycle(db: Db, id: DeliveryId)
    requires LedgerInv(db) && id in db.deliveries
    requires var d := db.deliveries[id]; CurrentKey(id, d) !in db.receipts && d.attempts <= 1
    ensures var d := db.deliveries[id];
      && (d.replayCount == 0 ==> forall k :: k in db.receipts ==> k.id != id)
      && (d.replayCount >= 1 ==> ShowsEndOfCycle(db, id, d.replayCount - 1, d.maxAttempts))
  {
    var d := db.deliveries[id];
    forall k | k in db.receipts && k.id == id ensures 0 <= k.replayCount < d.replayCount {
      assert k == AttemptKey(id, k.replayCount, k.attempt);
    }
    if d.replayCount >= 1 {
      assert FinishedCycle(db, id, d.replayCount - 1, d.maxAttempts);
      var n :| 1 <= n <= d.maxAttempts && ExactlyUpTo(db, id, d.replayCount - 1, n);
      var top := AttemptKey(id, d.replayCount - 1, n);
      forall j | j in db.receipts && j.id == id ensures TokenAtMost(j, top) {
        assert j == AttemptKey(id, j.replayCount, j.attempt);
      }
      LastReceiptAt(db, id, top);
    }
  }

  /** `last_receipt` returns the newest receipted attempt: the row's own token, the attempt before it while that one
      is in flight, or, while the current cycle has no receipt, the last of the cycle before, if there is one. */
  lemma LastReceiptIsNewest(db: Db, id: DeliveryId)
    requires LedgerInv(db) && id in db.deliveries
    ensures var d := db.deliveries[id];
      var open := CurrentKey(id, d) !in db.receipts;
      && (!open ==> ShowsOnly(db, id, CurrentKey(id, d)))
      && (open ==> d.status == Queued || d.status == Delivering)
      && (open && d.attempts >= 2 ==> ShowsOnly(db, id, AttemptKey(id, d.replayCount, d.attempts - 1)))
      && (open && d.attempts <= 1 && d.replayCount >= 1 ==> ShowsEndOfCycle(db, id, d.replayCount - 1, d.maxAttempts))
      && (open && d.attempts <= 1 && d.replayCount == 0 ==> forall k :: k in db.receipts ==> k.id != id)
  {
    var d := db.deliveries[id];
    var open := CurrentKey(id, d) !in db.receipts;
    if open && d.attempts <= 1 {
      LastReceiptOfEmptyCycle(db, id);
    } else {
      var top := if open then AttemptKey(id, d.replayCount, d.attempts - 1) else CurrentKey(id, d);
      forall j | j in db.receipts && j.id == id ensures TokenAtMost(j, top) {
        assert j == AttemptKey(id, j.replayCount, j.attempt);
      }
      LastReceiptAt(db, id, top);
    }
  }
}
