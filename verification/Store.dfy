/** The two tables and the transactions that update them in place. */
module Store {
  import opened Types
  import opened Order
  import opened Claim
  import opened Transactions

  class Postgres {
    var deliveries: map<DeliveryId, Delivery>
    var receipts: map<AttemptKey, Receipt>

    ghost function Contents(): Db
      reads this
    {
      Db(deliveries, receipts)
    }

    ghost predicate Valid()
      reads this
    {
      StoreValid(Contents())
    }

    /** A freshly migrated schema. */
    constructor ()
      ensures Valid() && Contents() == Db(map[], map[])
    {
      deliveries := map[];
      receipts := map[];
    }

    /** Table scan for the row of an event. */
    method FindEvent(eventId: Bytes) returns (found: Option<DeliveryId>)
      requires Valid()
      ensures found.Some? ==> IsRowOfEvent(Contents(), eventId, found.value)
      ensures found.None? ==> !EventKnown(Contents(), eventId)
    {
      var rest := deliveries.Keys;
      found := None;
      while rest != {}
        invariant rest <= deliveries.Keys
        invariant found.Some? ==> IsRowOfEvent(Contents(), eventId, found.value)
        invariant found.None? ==> forall id :: id in deliveries.Keys - rest ==> deliveries[id].content.eventId != eventId
        decreases rest
      {
        var id :| id in rest;
        rest := rest - {id};
        if deliveries[id].content.eventId == eventId {
          found := Some(id);
        }
      }
    }

    method InsertOrGet(delivery: NewDelivery, now: Micros) returns (r: Result<InsertOutcome, StoreError>)
      requires Valid()
      modifies this
      ensures Valid()
      ensures var spec := Inserted(old(Contents()), delivery, now);
        if spec.Ok? then Contents() == spec.value.0 && r == Ok(spec.value.1)
        else Contents() == old(Contents()) && r == Err(spec.error)
    {
      var row := Delivery(delivery.content, delivery.maxAttempts, now, Queued, delivery.availableAt, None, 0, 0, now);
      if !DeliveryCheck(row) {
        return Err(CheckViolation);
      }
      var clash := FindEvent(delivery.content.eventId);
      if delivery.id !in deliveries && clash.None? {
        InsertKeepsStoreValid(Contents(), delivery, now);
        deliveries := deliveries[delivery.id := row];
        return Ok(Created(ToRecord(delivery.id, row)));
      }
      if clash.None? {
        return Err(IdentityCollision);
      }
      assert clash.value == RowOfEvent(Contents(), delivery.content.eventId);
      var existing := deliveries[clash.value];
      var same :=
        && existing.content.eventType == delivery.content.eventType
        && existing.content.endpointUrl == delivery.content.endpointUrl
        && existing.content.endpointOrigin == delivery.content.endpointOrigin
        && existing.content.payload == delivery.content.payload
        && existing.content.payloadSha256 == delivery.content.payloadSha256
        && existing.content.queue == delivery.content.queue;
      return Ok(if same then Existing(ToRecord(clash.value, existing)) else Conflict);
    }

    /** The row and its newest receipt. */
    method Load(id: DeliveryId) returns (r: Option<DeliveryRecord>)
      ensures r.Some? <==> id in deliveries
      ensures r.Some? ==> r.value.(lastReceipt := None) == ToRecord(id, deliveries[id])
      ensures r.Some? && r.value.lastReceipt.None? ==> forall j :: j in receipts ==> j.id != id
      ensures r.Some? && r.value.lastReceipt.Some? ==>
        exists k :: IsLastReceipt(Contents(), id, k) && r.value.lastReceipt.value == (k.attempt, receipts[k])
    {
      if id !in deliveries {
        return None;
      }
      var last := LastReceipt(id);
      var record := ToRecord(id, deliveries[id]);
      if last.Some? {
        record := record.(lastReceipt := Some((last.value.attempt, receipts[last.value])));
      }
      return Some(record);
    }

    method LastReceipt(id: DeliveryId) returns (last: Option<AttemptKey>)
      ensures last.None? ==> forall j :: j in receipts ==> j.id != id
      ensures last.Some? ==> IsLastReceipt(Contents(), id, last.value)
    {
      var rest := receipts.Keys;
      last := None;
      while rest != {}
        invariant rest <= receipts.Keys
        invariant last.None? ==> forall j :: j in receipts.Keys - rest ==> j.id != id
        invariant last.Some? ==> last.value in receipts && last.value.id == id
        invariant last.Some? ==> forall j :: j in receipts.Keys - rest && j.id == id ==> TokenAtMost(j, last.value)
        decreases rest
      {
        var k :| k in rest;
        rest := rest - {k};
        if k.id == id && (last.None? || TokenLess(last.value, k)) {
          last := Some(k);
        }
      }
    }

    /** Scan for the first row of one ORDER BY. */
    method FindLeast(ids: set<DeliveryId>, ranks: Ranks) returns (best: DeliveryId)
      requires ids != {} && Ranked(ids, ranks)
      ensures IsLeast(ids, ranks, best)
    {
      best :| best in ids;
      var rest := ids - {best};
      while rest != {}
        invariant rest <= ids && best in ids - rest
        invariant forall j :: j in ids - rest && j != best ==> KeyLess(ranks[best], ranks[j])
        decreases rest
      {
        var id :| id in rest;
        rest := rest - {id};
        KeyTotal(ranks[best], ranks[id]);
        if KeyLess(ranks[id], ranks[best]) {
          forall j | j in ids - rest && j != id && j != best ensures KeyLess(ranks[id], ranks[j]) {
            KeyTransitive(ranks[id], ranks[best], ranks[j]);
          }
          best := id;
        }
      }
    }

    /** `ORDER BY lease_expires_at, delivery_id FOR UPDATE SKIP LOCKED LIMIT n` over the expired leases. */
    method SelectExpired(p: ClaimParams) returns (batch: set<DeliveryId>)
      ensures batch == Batch(Contents(), p)
    {
      var expired := ExpiredIds(Db(deliveries, receipts), p);
      var ranks := LeaseRanks(Db(deliveries, receipts));
      var rest := expired;
      batch := {};
      while |batch| < p.limit && rest != {}
        invariant batch !! rest && batch + rest == expired && |batch| <= p.limit
        invariant forall a, b :: a in batch && b in rest ==> KeyLess(ranks[a], ranks[b])
        decreases rest
      {
        var next := FindLeast(rest, ranks);
        batch := batch + {next};
        rest := rest - {next};
      }
      assert |expired| == |batch| + |rest| by { assert expired == batch + rest; }
      FirstUnique(expired, ranks, p.limit, batch, Batch(Contents(), p));
    }

    /** Receipts the batch, keeping the receipt of any attempt that already has one. */
    method ReceiptExpired(snapshot: map<DeliveryId, Delivery>, batch: set<DeliveryId>, now: Micros)
      requires batch <= snapshot.Keys
      modifies this`receipts
      ensures receipts == ExpiryReceipts(Db(snapshot, old(receipts)), batch, now) + old(receipts)
    {
      ghost var before := Db(snapshot, receipts);
      var rest := batch;
      while rest != {}
        invariant rest <= batch
        invariant receipts == ExpiryReceipts(before, batch - rest, now) + before.receipts
        decreases rest
      {
        var id :| id in rest;
        var key := AttemptKey(id, snapshot[id].replayCount, snapshot[id].attempts);
        ghost var wasReceipts := receipts;
        if key !in receipts {
          receipts := receipts[key := Receipt(LeaseExpired, None, None, now)];
        }
        assert forall k :: IsBatchKey(before, batch - (rest - {id}), k) <==> IsBatchKey(before, batch - rest, k) || k == key;
        rest := rest - {id};
      }
      assert batch - rest == batch;
    }

    /** Dead-letters the exhausted rows of the batch. */
    method RetireExhausted(batch: set<DeliveryId>, now: Micros)
      requires batch <= deliveries.Keys
      modifies this`deliveries
      ensures deliveries.Keys == old(deliveries).Keys
      ensures forall id | id in deliveries ::
        deliveries[id] == Retired(old(deliveries)[id], id in batch, now)
    {
      ghost var before := deliveries;
      var rest := batch;
      while rest != {}
        invariant rest <= batch && deliveries.Keys == before.Keys
        invariant forall id | id in before :: deliveries[id] == Retired(before[id], id in batch - rest, now)
        decreases rest
      {
        var id :| id in rest;
        rest := rest - {id};
        if deliveries[id].attempts >= deliveries[id].maxAttempts {
          deliveries := deliveries[id := deliveries[id].(status := DeadLetter, lease := None, updatedAt := now)];
        }
      }
    }

    /** Receipts and retires one bounded batch of expired leases. */
    method MaintainExpired(p: ClaimParams) returns (batch: set<DeliveryId>)
      modifies this
      ensures batch == Batch(old(Contents()), p)
      ensures Contents() == ApplyClaim(old(Contents()), p, batch, None)
    {
      ghost var before := Contents();
      batch := SelectExpired(p);
      ReceiptExpired(deliveries, batch, p.now);
      RetireExhausted(batch, p.now);
      MaintenanceIsApply(before, p, batch, Contents());
    }

    /** `ORDER BY available_at, created_at, delivery_id LIMIT 1` over the snapshot. */
    method FindCandidate(snapshot: map<DeliveryId, Delivery>, p: ClaimParams, batch: set<DeliveryId>)
      returns (c: Option<DeliveryId>)
      ensures forall db: Db | db.deliveries == snapshot :: IsCandidate(db, p, batch, c)
    {
      var eligible := EligibleIds(Db(snapshot, map[]), p, batch);
      if eligible == {} {
        return None;
      }
      var best := FindLeast(eligible, DueRanks(Db(snapshot, map[])));
      return Some(best);
    }

    /** One statement over one snapshot: receipt and retire a bounded expired batch, then lease one row. */
    method ClaimDue(p: ClaimParams) returns (claimed: Option<DeliveryRecord>)
      requires Valid()
      modifies this
      ensures Valid()
      ensures Contents() == ClaimDb(old(Contents()), p) && claimed == ClaimRecord(old(Contents()), p)
    {
      ghost var before := Contents();
      ClaimKeepsStoreValid(before, p);
      var snapshot := deliveries;
      var batch := MaintainExpired(p);
      var c := FindCandidate(snapshot, p, batch);
      ClaimIsDetermined(before, p, batch, c);
      assert Contents() == ApplyClaim(before, p, batch, None);
      if c.None? {
        return None;
      }
      LeaseAfterRetirement(before, p, batch, c.value);
      claimed := LeaseRow(c.value, p);
    }

    method LeaseRow(id: DeliveryId, p: ClaimParams) returns (claimed: Option<DeliveryRecord>)
      requires id in deliveries
      modifies this`deliveries
      ensures Contents() == old(Contents()).(deliveries := old(deliveries)[id := Take(old(deliveries)[id], p)])
      ensures claimed == Some(ToRecord(id, Take(old(deliveries)[id], p)))
    {
      var row := deliveries[id];
      deliveries := deliveries[id := row.(status := Delivering, attempts := row.attempts + 1,
        lease := Some(p.now + p.leaseSeconds * SECOND), updatedAt := p.now)];
      return Some(ToRecord(id, deliveries[id]));
    }

    method RecordOutcome(key: AttemptKey, receipt: Receipt, status: Status, next: Option<Micros>, now: Micros)
      returns (r: Result<(), StoreError>)
      requires Valid()
      modifies this
      ensures Valid()
      ensures var spec := RecordedDb(old(Contents()), key, receipt, status, next, now);
        if spec.Ok? then r == Ok(()) && Contents() == spec.value
        else r == Err(spec.error) && Contents() == old(Contents())
    {
      ghost var before := Contents();
      var undo := receipts;
      if !ReceiptCheck(key, receipt) {
        return Err(CheckViolation);
      }
      if key !in receipts {
        if key.id !in deliveries {
          return Err(ForeignKeyViolation);
        }
        receipts := receipts[key := receipt];
      }
      var updated := 0;
      if key.id in deliveries {
        var d := deliveries[key.id];
        if d.replayCount == key.replayCount && d.attempts == key.attempt && d.status == Delivering
          && d.lease.Some? && d.lease.value > now
        {
          RecordKeepsStoreValid(before, key, receipt, status, next, now);
          deliveries := deliveries[key.id := d.(
            status := status,
            availableAt := if next.Some? then next.value else d.availableAt,
            lease := if status == Delivering then d.lease else None,
            updatedAt := now)];
          updated := 1;
        }
      }
      if updated != 1 {
        receipts := undo;
        return Err(FenceRejected);
      }
      return Ok(());
    }

    method BeginReplay(id: DeliveryId, now: Micros) returns (r: Option<DeliveryRecord>)
      requires Valid()
      modifies this`deliveries
      ensures Valid()
      ensures Contents() == ReplayedDb(old(Contents()), id, now)
      ensures r == if CanReplay(old(Contents()), id) then Some(ToRecord(id, Requeue(old(deliveries)[id], now))) else None
    {
      ReplayKeepsStoreValid(Contents(), id, now);
      if id !in deliveries || deliveries[id].status != DeadLetter || deliveries[id].replayCount >= MAX_REPLAYS {
        return None;
      }
      var d := deliveries[id];
      deliveries := deliveries[id := d.(replayCount := d.replayCount + 1, status := Queued, attempts := 0,
        availableAt := now, lease := None, updatedAt := now)];
      return Some(ToRecord(id, deliveries[id]));
    }
  }
}
